/**
 The text of a systemd unit (crates/config/src/service_unit.rs): the rendered lines, the parsers
 that look for `ExecStart=` and `Environment=` in them, and the round-trip theorems.
 */
module SystemdText {
  import opened Text
  import opened Targets
  import opened SystemdUnit

  const EXEC: string := "ExecStart="
  const ENV: string := "Environment="
  const HOME_KEY: string := "TOOLU_RUNNER_HOME="
  const SESSION_CONFLICT_EXIT_CODE: string := "5"

  // ----------------------------------------------------------------------- rendering

  /** Every line followed by a newline: the text the renderers push piece by piece. */
  function Unlines(lines: seq<string>): string {
    if lines == [] then [] else lines[0] + "\n" + Unlines(lines[1..])
  }

  function EnvLine(key: string, value: string): string {
    ENV + EnvAssignment(key, value)
  }

  function OptionalEnv(key: string, value: Option<string>): seq<string> {
    if value.Some? then [EnvLine(key, value.value)] else []
  }

  function Head(description: string): seq<string> {
    ["[Unit]", "Description=toolu-runner (" + description + ")", "", "[Service]"]
  }

  function Environment(envPath: string, userHome: Option<string>, runnerHome: Option<string>): seq<string> {
    [EnvLine("PATH", envPath)] + OptionalEnv("HOME", userHome) + OptionalEnv("TOOLU_RUNNER_HOME", runnerHome)
  }

  function Install(target: string): seq<string> {
    ["", "[Install]", "WantedBy=" + target]
  }

  /** `render_systemd_unit`. */
  function RenderUnit(spec: ServiceSpec, target: string, userHome: Option<string>, runnerHome: Option<string>): string {
    Unlines(UnitLines(spec, target, userHome, runnerHome))
  }

  function UnitLines(spec: ServiceSpec, target: string, userHome: Option<string>,
                     runnerHome: Option<string>): seq<string> {
    Head(ReplaceChar(spec.name, '%', "%%"))
    + Environment(spec.envPath, userHome, runnerHome)
    + ([EXEC + ExecConfig(spec.exe, spec.config)]
       + (["Restart=always", "RestartSec=5", "RestartPreventExitStatus=" + SESSION_CONFLICT_EXIT_CODE]
          + Install(target)))
  }

  /** `render_systemd_machine_unit`. */
  function RenderMachineUnit(spec: MachineSpec, target: string, userHome: Option<string>): string {
    Unlines(MachineLines(spec, target, userHome))
  }

  function MachineLines(spec: MachineSpec, target: string, userHome: Option<string>): seq<string> {
    Head(MACHINE_LABEL)
    + Environment(spec.envPath, userHome, spec.home)
    + ([EXEC + ExecAll(spec.exe)]
       + (["ExecReload=/bin/kill -HUP $MAINPID", "Restart=always", "RestartSec=5"] + Install(target)))
  }

  // ------------------------------------------------------------------------- parsing

  function StripCr(line: string): string {
    if line != [] && line[|line| - 1] == '\r' then line[..|line| - 1] else line
  }

  /** `str::lines`: the pieces between newlines, without a final empty one. */
  function StrLines(text: string): seq<string> {
    var pieces := Split(text, {'\n'});
    if pieces[|pieces| - 1] == [] then pieces[..|pieces| - 1] else pieces
  }

  function FindExec(lines: seq<string>): Option<string> {
    if lines == [] then None
    else match StripPrefix(Trim(StripCr(lines[0])), EXEC)
      case Some(exec) => Some(exec)
      case None => FindExec(lines[1..])
  }

  /** `parse_systemd_target`. */
  function ParseTarget(unit: string): Option<Supervises> {
    match FindExec(StrLines(unit))
    case None => None
    case Some(exec) => TargetFromArgs(Words(exec))
  }

  /** The rest of the first word that starts with `key`, a name and an equals sign. */
  function SetInWords(words: seq<string>, key: string): Option<string> {
    if words == [] then None
    else match StripPrefix(words[0], key)
      case Some(value) => Some(value)
      case None => SetInWords(words[1..], key)
  }

  function SetInLine(line: string, key: string): Option<string> {
    match StripPrefix(Trim(StripCr(line)), ENV)
    case None => None
    case Some(rest) => SetInWords(Words(rest), key)
  }

  function FindSet(lines: seq<string>, key: string): Option<string> {
    if lines == [] then None
    else match SetInLine(lines[0], key)
      case Some(value) => Some(value)
      case None => FindSet(lines[1..], key)
  }

  /** `parse_systemd_home`. */
  function ParseHome(unit: string): Option<string> {
    FindSet(StrLines(unit), HOME_KEY)
  }

  // ---------------------------------------------------------------- lines and newlines

  predicate NoNewline(s: string) {
    forall i :: 0 <= i < |s| ==> s[i] != '\n'
  }

  predicate Newlineless(lines: seq<string>) {
    forall i :: 0 <= i < |lines| ==> NoNewline(lines[i])
  }

  predicate OptionNoNewline(s: Option<string>) {
    s.Some? ==> NoNewline(s.value)
  }

  lemma {:induction false} SplitUnlines(lines: seq<string>)
    requires Newlineless(lines)
    ensures Split(Unlines(lines), {'\n'}) == lines + [[]]
    decreases |lines|
  {
    if lines != [] {
      SplitUnlines(lines[1..]);
      ConcatAssoc(lines[0], "\n", Unlines(lines[1..]));
      SplitFirst(lines[0], "\n", Unlines(lines[1..]), {'\n'});
      assert lines == [lines[0]] + lines[1..];
      assert [lines[0]] + (lines[1..] + [[]]) == lines + [[]];
    }
  }

  /** Reading the lines of a rendered unit gives the rendered lines. */
  lemma LinesReadBack(lines: seq<string>)
    requires Newlineless(lines)
    ensures StrLines(Unlines(lines)) == lines
  {
    SplitUnlines(lines);
    assert (lines + [[]])[..|lines|] == lines;
  }

  lemma NoNewlineConcat(a: string, b: string)
    requires NoNewline(a) && NoNewline(b)
    ensures NoNewline(a + b)
  {
  }

  lemma {:induction false} NoNewlineFlatMap(s: string, f: char -> string)
    requires NoNewline(s) && forall c :: c != '\n' ==> NoNewline(f(c))
    ensures NoNewline(FlatMap(s, f))
  {
    if s != [] {
      assert s[0] != '\n';
      assert forall i :: 0 <= i < |s[1..]| ==> s[1..][i] == s[i + 1];
      NoNewlineFlatMap(s[1..], f);
      NoNewlineConcat(f(s[0]), FlatMap(s[1..], f));
    }
  }

  lemma NoNewlineQuote(s: string)
    requires NoNewline(s)
    ensures NoNewline(SystemdQuote(s))
  {
    QuoteEscapedIsOnePass(s);
    NoNewlineFlatMap(s, QuoteChar);
    NoNewlineConcat("\"", QuoteEscaped(s));
    NoNewlineConcat("\"" + QuoteEscaped(s), "\"");
  }

  lemma NoNewlineEnvLine(key: string, value: string)
    requires NoNewline(key) && NoNewline(value)
    ensures NoNewline(EnvLine(key, value))
  {
    var raw := key + "=" + value;
    EnvEscapedIsOnePass(raw);
    NoNewlineFlatMap(raw, EnvChar);
    NoNewlineConcat("\"", EnvEscaped(raw));
    NoNewlineConcat("\"" + EnvEscaped(raw), "\"");
    NoNewlineConcat(ENV, EnvAssignment(key, value));
  }

  lemma NewlinelessConcat(a: seq<string>, b: seq<string>)
    requires Newlineless(a) && Newlineless(b)
    ensures Newlineless(a + b)
  {
  }

  // ------------------------------------------------------------------------ trimming

  lemma {:induction false} TrimEndKeeps(p: string, rest: string)
    requires p != [] && !IsWhitespace(p[|p| - 1])
    ensures p <= TrimEnd(p + rest)
    decreases |rest|
  {
    var s := p + rest;
    if rest == [] {
      assert s == p;
    } else if IsWhitespace(s[|s| - 1]) {
      assert s[..|s| - 1] == p + rest[..|rest| - 1];
      TrimEndKeeps(p, rest[..|rest| - 1]);
    }
  }

  /** Trimming a line keeps a prefix that neither starts nor ends in white space. */
  lemma TrimKeepsPrefix(p: string, rest: string)
    requires p != [] && !IsWhitespace(p[0]) && !IsWhitespace(p[|p| - 1])
    ensures p <= Trim(StripCr(p + rest))
  {
    var line := p + rest;
    assert p[|p| - 1] != '\r';
    if line[|line| - 1] == '\r' {
      assert rest != [] && line[..|line| - 1] == p + rest[..|rest| - 1];
      TrimEndKeeps(p, rest[..|rest| - 1]);
    } else {
      TrimEndKeeps(p, rest);
    }
  }

  lemma TrimIsIdentity(line: string)
    requires line != [] && !IsWhitespace(line[0]) && !IsWhitespace(line[|line| - 1])
    ensures Trim(StripCr(line)) == line
  {
  }

  lemma PrefixesDiffer(s: string, p: string, q: string, i: nat)
    requires p <= s && i < |p| && i < |q| && p[i] != q[i]
    ensures !(q <= s)
  {
  }

  /** A line starting with `p` is not one the parsers look for, if `p` differs from it early on. */
  lemma NotLike(p: string, rest: string, q: string, i: nat)
    requires p != [] && !IsWhitespace(p[0]) && !IsWhitespace(p[|p| - 1])
    requires i < |p| && i < |q| && p[i] != q[i]
    ensures StripPrefix(Trim(StripCr(p + rest)), q) == None
  {
    TrimKeepsPrefix(p, rest);
    PrefixesDiffer(Trim(StripCr(p + rest)), p, q, i);
  }

  predicate Inert(line: string, q: string) {
    StripPrefix(Trim(StripCr(line)), q) == None
  }

  predicate AllInert(lines: seq<string>, q: string) {
    forall i :: 0 <= i < |lines| ==> Inert(lines[i], q)
  }

  lemma InertLiteral(line: string, q: string, i: nat)
    requires line != [] && !IsWhitespace(line[0]) && !IsWhitespace(line[|line| - 1])
    requires i < |line| && i < |q| && line[i] != q[i]
    ensures Inert(line, q)
  {
    NotLike(line, [], q, i);
    assert line + [] == line;
  }

  lemma AllInertConcat(a: seq<string>, b: seq<string>, q: string)
    requires AllInert(a, q) && AllInert(b, q)
    ensures AllInert(a + b, q)
  {
  }

  lemma DescriptionIsInert(description: string, q: string)
    requires q != [] && q[0] == 'E'
    ensures Inert("Description=toolu-runner (" + description + ")", q)
  {
    NotLike("Description=toolu-runner", " (" + description + ")", q, 0);
    assert "Description=toolu-runner" + (" (" + description + ")") == "Description=toolu-runner (" + description + ")";
  }

  lemma HeadIsInert(description: string, q: string)
    requires q != [] && q[0] == 'E'
    ensures AllInert(Head(description), q)
  {
    InertLiteral("[Unit]", q, 0);
    InertLiteral("[Service]", q, 0);
    DescriptionIsInert(description, q);
    assert Trim(StripCr("")) == "";
  }

  lemma InstallIsInert(target: string)
    ensures AllInert(Install(target), ENV)
  {
    InertLiteral("[Install]", ENV, 0);
    NotLike("WantedBy=", target, ENV, 0);
    assert Trim(StripCr("")) == "";
  }

  lemma EnvLineIsNoExec(key: string, value: string)
    ensures Inert(EnvLine(key, value), EXEC)
  {
    NotLike(ENV, EnvAssignment(key, value), EXEC, 1);
  }

  lemma ExecIsNoEnv(exec: string)
    ensures Inert(EXEC + exec, ENV)
  {
    NotLike(EXEC, exec, ENV, 1);
  }

  lemma OptionalEnvIsNoExec(key: string, value: Option<string>)
    ensures AllInert(OptionalEnv(key, value), EXEC)
  {
    if value.Some? { EnvLineIsNoExec(key, value.value); }
  }

  lemma EnvironmentIsNoExec(envPath: string, userHome: Option<string>, runnerHome: Option<string>)
    ensures AllInert(Environment(envPath, userHome, runnerHome), EXEC)
  {
    EnvLineIsNoExec("PATH", envPath);
    OptionalEnvIsNoExec("HOME", userHome);
    OptionalEnvIsNoExec("TOOLU_RUNNER_HOME", runnerHome);
    AllInertConcat([EnvLine("PATH", envPath)], OptionalEnv("HOME", userHome), EXEC);
    AllInertConcat([EnvLine("PATH", envPath)] + OptionalEnv("HOME", userHome),
                   OptionalEnv("TOOLU_RUNNER_HOME", runnerHome), EXEC);
  }

  // ------------------------------------------------------------------ finding ExecStart

  lemma {:induction false} FindExecSkips(before: seq<string>, rest: seq<string>)
    requires AllInert(before, EXEC)
    ensures FindExec(before + rest) == FindExec(rest)
    decreases |before|
  {
    if before == [] {
      assert before + rest == rest;
    } else {
      assert (before + rest)[0] == before[0] && Inert(before[0], EXEC);
      assert (before + rest)[1..] == before[1..] + rest;
      FindExecSkips(before[1..], rest);
    }
  }

  lemma FindExecHit(exec: string, after: seq<string>)
    requires exec != [] && !IsWhitespace(exec[|exec| - 1])
    ensures FindExec([EXEC + exec] + after) == Some(exec)
  {
    var line := EXEC + exec;
    assert line[0] == 'E' && line[|line| - 1] == exec[|exec| - 1];
    TrimIsIdentity(line);
    assert line[|EXEC|..] == exec;
    assert ([line] + after)[0] == line;
  }

  /** Whatever the surrounding lines, the command line is found and read whole. */
  lemma ExecIsFound(description: string, envPath: string, userHome: Option<string>, runnerHome: Option<string>,
                    exec: string, after: seq<string>)
    requires exec != [] && !IsWhitespace(exec[|exec| - 1])
    ensures FindExec(Head(description) + Environment(envPath, userHome, runnerHome) + ([EXEC + exec] + after))
         == Some(exec)
  {
    HeadIsInert(description, EXEC);
    EnvironmentIsNoExec(envPath, userHome, runnerHome);
    AllInertConcat(Head(description), Environment(envPath, userHome, runnerHome), EXEC);
    FindExecSkips(Head(description) + Environment(envPath, userHome, runnerHome), [EXEC + exec] + after);
    FindExecHit(exec, after);
  }

  // ------------------------------------------------------------- finding a variable

  lemma {:induction false} FindSetSkips(before: seq<string>, rest: seq<string>, key: string)
    requires forall i :: 0 <= i < |before| ==> SetInLine(before[i], key) == None
    ensures FindSet(before + rest, key) == FindSet(rest, key)
    decreases |before|
  {
    if before == [] {
      assert before + rest == rest;
    } else {
      assert (before + rest)[0] == before[0];
      assert (before + rest)[1..] == before[1..] + rest;
      FindSetSkips(before[1..], rest, key);
    }
  }

  lemma EnvLineStripped(key: string, value: string)
    ensures StripPrefix(Trim(StripCr(EnvLine(key, value))), ENV) == Some(EnvAssignment(key, value))
  {
    var line := EnvLine(key, value);
    assert line[0] == 'E' && line[|line| - 1] == '\"';
    TrimIsIdentity(line);
    assert line[|ENV|..] == EnvAssignment(key, value);
  }

  lemma SetInOneWord(word: string, key: string)
    ensures SetInWords([word], key) == StripPrefix(word, key)
  {
    assert [word][1..] == [];
  }

  /** A variable's name: neither a dollar nor an equals sign in it. */
  predicate IsName(name: string) {
    forall i :: 0 <= i < |name| ==> name[i] != '$' && name[i] != '='
  }

  /** An assignment starts with a name and an equals sign only if that is its own name. */
  lemma AssignmentOf(k: string, value: string, name: string)
    requires IsName(k) && IsName(name)
    ensures StripPrefix(k + "=" + value, name + "=") == if k == name then Some(value) else None
  {
    var word, key := k + "=" + value, name + "=";
    if k == name {
      assert word[..|key|] == key && word[|key|..] == value;
    } else if key <= word {
      assert forall i :: 0 <= i < |key| ==> word[i] == key[i];
      assert word[|k|] == '=' && key[|name|] == '=';
      assert |k| == |name|;
      assert forall i :: 0 <= i < |k| ==> k[i] == word[i] == key[i] == name[i];
    }
  }

  /** The one word an assignment line holds. */
  lemma SetInEnvLine(k: string, value: string, name: string)
    requires IsName(k) && IsName(name)
    ensures SetInLine(EnvLine(k, value), name + "=") == if k == name then Some(Collapsed(value)) else None
  {
    EnvLineStripped(k, value);
    WordsOfAssignment(k, value);
    CollapsedAfterKey(k + "=", value);
    SetInOneWord(Collapsed(k + "=" + value), name + "=");
    AssignmentOf(k, Collapsed(value), name);
  }

  lemma {:induction false} NoneSetInInert(lines: seq<string>, key: string)
    requires AllInert(lines, ENV)
    ensures FindSet(lines, key) == None
    decreases |lines|
  {
    if lines != [] {
      assert Inert(lines[0], ENV);
      NoneSetInInert(lines[1..], key);
    }
  }

  /** A value as a unit with it parses back. */
  function AsRead(value: Option<string>): Option<string> {
    if value.Some? then Some(Collapsed(value.value)) else None
  }

  lemma SetInOptional(k: string, value: Option<string>, name: string, after: seq<string>)
    requires IsName(k) && IsName(name)
    ensures FindSet(OptionalEnv(k, value) + after, name + "=")
         == if k == name && value.Some? then AsRead(value) else FindSet(after, name + "=")
  {
    var lines := OptionalEnv(k, value) + after;
    if value.Some? {
      SetInEnvLine(k, value.value, name);
      assert lines[0] == EnvLine(k, value.value) && lines[1..] == after;
    } else {
      assert lines == after;
    }
  }

  /** What each variable is set to. */
  function VariableOf(envPath: string, userHome: Option<string>, runnerHome: Option<string>, name: string):
      Option<string> {
    if name == "PATH" then AsRead(Some(envPath))
    else if name == "HOME" then AsRead(userHome)
    else if name == "TOOLU_RUNNER_HOME" then AsRead(runnerHome)
    else None
  }

  lemma SetInEnvironment(envPath: string, userHome: Option<string>, runnerHome: Option<string>, after: seq<string>,
                         name: string)
    requires AllInert(after, ENV) && IsName(name)
    ensures FindSet(Environment(envPath, userHome, runnerHome) + after, name + "=")
         == VariableOf(envPath, userHome, runnerHome, name)
  {
    var path, home := OptionalEnv("PATH", Some(envPath)), OptionalEnv("HOME", userHome);
    var pinned := OptionalEnv("TOOLU_RUNNER_HOME", runnerHome);
    assert IsName("PATH") && IsName("HOME") && IsName("TOOLU_RUNNER_HOME");
    assert |"PATH"| == 4 && |"HOME"| == 4 && |"TOOLU_RUNNER_HOME"| == 17 && "PATH"[0] == 'P' && "HOME"[0] == 'H';
    assert ((path + home) + pinned) + after == path + (home + (pinned + after));
    SetInOptional("PATH", Some(envPath), name, home + (pinned + after));
    SetInOptional("HOME", userHome, name, pinned + after);
    SetInOptional("TOOLU_RUNNER_HOME", runnerHome, name, after);
    NoneSetInInert(after, name + "=");
  }

  lemma VariableIsFound(description: string, envPath: string, userHome: Option<string>, runnerHome: Option<string>,
                        after: seq<string>, name: string)
    requires AllInert(after, ENV) && IsName(name)
    ensures FindSet(Head(description) + Environment(envPath, userHome, runnerHome) + after, name + "=")
         == VariableOf(envPath, userHome, runnerHome, name)
  {
    HeadIsInert(description, ENV);
    var env := Environment(envPath, userHome, runnerHome);
    forall i | 0 <= i < |Head(description)| ensures SetInLine(Head(description)[i], name + "=") == None {
      assert Inert(Head(description)[i], ENV);
    }
    assert Head(description) + env + after == Head(description) + (env + after);
    FindSetSkips(Head(description), env + after, name + "=");
    SetInEnvironment(envPath, userHome, runnerHome, after, name);
  }

  // ----------------------------------------------------------------- the round trips

  predicate WellFormed(spec: ServiceSpec, target: string, userHome: Option<string>, runnerHome: Option<string>) {
    && Absolute(spec.exe) && Absolute(spec.config)
    && NoNewline(spec.name) && NoNewline(spec.exe) && NoNewline(spec.config) && NoNewline(spec.envPath)
    && NoNewline(target) && OptionNoNewline(userHome) && OptionNoNewline(runnerHome)
  }

  predicate WellFormedMachine(spec: MachineSpec, target: string, userHome: Option<string>) {
    && Absolute(spec.exe)
    && NoNewline(spec.exe) && NoNewline(spec.envPath) && OptionNoNewline(spec.home)
    && NoNewline(target) && OptionNoNewline(userHome)
  }

  lemma HeadIsNewlineless(description: string)
    requires NoNewline(description)
    ensures Newlineless(Head(description))
  {
    NoNewlineConcat("Description=toolu-runner (", description);
    NoNewlineConcat("Description=toolu-runner (" + description, ")");
  }

  lemma EnvironmentIsNewlineless(envPath: string, userHome: Option<string>, runnerHome: Option<string>)
    requires NoNewline(envPath) && OptionNoNewline(userHome) && OptionNoNewline(runnerHome)
    ensures Newlineless(Environment(envPath, userHome, runnerHome))
  {
    NoNewlineEnvLine("PATH", envPath);
    if userHome.Some? { NoNewlineEnvLine("HOME", userHome.value); }
    if runnerHome.Some? { NoNewlineEnvLine("TOOLU_RUNNER_HOME", runnerHome.value); }
  }

  lemma InstallIsNewlineless(target: string)
    requires NoNewline(target)
    ensures Newlineless(Install(target))
  {
    NoNewlineConcat("WantedBy=", target);
  }

  lemma ExecIsNewlineless(exe: string, config: string)
    requires NoNewline(exe) && NoNewline(config)
    ensures NoNewline(EXEC + ExecConfig(exe, config)) && NoNewline(EXEC + ExecAll(exe))
  {
    NoNewlineQuote(exe);
    NoNewlineQuote(config);
    NoNewlineConcat(SystemdQuote(exe), " run --config ");
    NoNewlineConcat(SystemdQuote(exe) + " run --config ", SystemdQuote(config));
    NoNewlineConcat(SystemdQuote(exe), " run --all");
    NoNewlineConcat(EXEC, ExecConfig(exe, config));
    NoNewlineConcat(EXEC, ExecAll(exe));
  }

  lemma LinesAreNewlineless(description: string, envPath: string, userHome: Option<string>, runnerHome: Option<string>,
                            exec: string, restart: seq<string>, target: string)
    requires NoNewline(description) && NoNewline(envPath) && OptionNoNewline(userHome) && OptionNoNewline(runnerHome)
    requires NoNewline(exec) && Newlineless(restart) && NoNewline(target)
    ensures Newlineless(Head(description) + Environment(envPath, userHome, runnerHome)
                        + ([exec] + (restart + Install(target))))
  {
    var head, env := Head(description), Environment(envPath, userHome, runnerHome);
    HeadIsNewlineless(description);
    EnvironmentIsNewlineless(envPath, userHome, runnerHome);
    InstallIsNewlineless(target);
    NewlinelessConcat(restart, Install(target));
    NewlinelessConcat([exec], restart + Install(target));
    NewlinelessConcat(head, env);
    NewlinelessConcat(head + env, [exec] + (restart + Install(target)));
  }

  lemma UnitIsNewlineless(spec: ServiceSpec, target: string, userHome: Option<string>, runnerHome: Option<string>)
    requires WellFormed(spec, target, userHome, runnerHome)
    ensures Newlineless(UnitLines(spec, target, userHome, runnerHome))
  {
    NoNewlineFlatMap(spec.name, x => if x == '%' then "%%" else [x]);
    ExecIsNewlineless(spec.exe, spec.config);
    LinesAreNewlineless(ReplaceChar(spec.name, '%', "%%"), spec.envPath, userHome, runnerHome,
                        EXEC + ExecConfig(spec.exe, spec.config),
                        ["Restart=always", "RestartSec=5", "RestartPreventExitStatus=" + SESSION_CONFLICT_EXIT_CODE],
                        target);
  }

  lemma MachineIsNewlineless(spec: MachineSpec, target: string, userHome: Option<string>)
    requires WellFormedMachine(spec, target, userHome)
    ensures Newlineless(MachineLines(spec, target, userHome))
  {
    ExecIsNewlineless(spec.exe, []);
    LinesAreNewlineless(MACHINE_LABEL, spec.envPath, userHome, spec.home, EXEC + ExecAll(spec.exe),
                        ["ExecReload=/bin/kill -HUP $MAINPID", "Restart=always", "RestartSec=5"], target);
  }

  /** A registration unit names exactly the configuration it was rendered for. */
  lemma UnitTargetRoundTrip(spec: ServiceSpec, target: string, userHome: Option<string>, runnerHome: Option<string>)
    requires WellFormed(spec, target, userHome, runnerHome)
    ensures ParseTarget(RenderUnit(spec, target, userHome, runnerHome)) == Some(Config(spec.config))
  {
    UnitIsNewlineless(spec, target, userHome, runnerHome);
    LinesReadBack(UnitLines(spec, target, userHome, runnerHome));
    var exec := ExecConfig(spec.exe, spec.config);
    assert exec[|exec| - 1] == '\"';
    ExecIsFound(ReplaceChar(spec.name, '%', "%%"), spec.envPath, userHome, runnerHome, exec,
                ["Restart=always", "RestartSec=5", "RestartPreventExitStatus=" + SESSION_CONFLICT_EXIT_CODE]
                + Install(target));
    WordsOfExecConfig(spec.exe, spec.config);
    TargetOfConfigArgs(spec.exe, spec.config);
  }

  /** The machine unit reads back as supervising everything. */
  lemma MachineTargetRoundTrip(spec: MachineSpec, target: string, userHome: Option<string>)
    requires WellFormedMachine(spec, target, userHome)
    ensures ParseTarget(RenderMachineUnit(spec, target, userHome)) == Some(All)
  {
    MachineIsNewlineless(spec, target, userHome);
    LinesReadBack(MachineLines(spec, target, userHome));
    var exec := ExecAll(spec.exe);
    assert exec[|exec| - 1] == 'l';
    ExecIsFound(MACHINE_LABEL, spec.envPath, userHome, spec.home, exec,
                ["ExecReload=/bin/kill -HUP $MAINPID", "Restart=always", "RestartSec=5"] + Install(target));
    WordsOfExecAll(spec.exe);
    TargetOfAllArgs(spec.exe);
  }

  lemma AfterExecIsInert(exec: string, restart: seq<string>, target: string)
    requires AllInert(restart, ENV)
    ensures AllInert([EXEC + exec] + (restart + Install(target)), ENV)
  {
    ExecIsNoEnv(exec);
    InstallIsInert(target);
    AllInertConcat(restart, Install(target), ENV);
    AllInertConcat([EXEC + exec], restart + Install(target), ENV);
  }

  lemma RestartIsInert()
    ensures AllInert(["Restart=always", "RestartSec=5", "RestartPreventExitStatus=" + SESSION_CONFLICT_EXIT_CODE], ENV)
    ensures AllInert(["ExecReload=/bin/kill -HUP $MAINPID", "Restart=always", "RestartSec=5"], ENV)
  {
    InertLiteral("Restart=always", ENV, 0);
    InertLiteral("RestartSec=5", ENV, 0);
    NotLike("RestartPreventExitStatus=", SESSION_CONFLICT_EXIT_CODE, ENV, 0);
    InertLiteral("ExecReload=/bin/kill -HUP $MAINPID", ENV, 1);
  }

  /** Every variable of a unit reads back as it was given, with adjacent dollars collapsed. */
  lemma UnitVariableAsRead(spec: ServiceSpec, target: string, userHome: Option<string>, runnerHome: Option<string>,
                           name: string)
    requires WellFormed(spec, target, userHome, runnerHome) && IsName(name)
    ensures FindSet(StrLines(RenderUnit(spec, target, userHome, runnerHome)), name + "=")
         == VariableOf(spec.envPath, userHome, runnerHome, name)
  {
    UnitIsNewlineless(spec, target, userHome, runnerHome);
    LinesReadBack(UnitLines(spec, target, userHome, runnerHome));
    var restart := ["Restart=always", "RestartSec=5", "RestartPreventExitStatus=" + SESSION_CONFLICT_EXIT_CODE];
    RestartIsInert();
    AfterExecIsInert(ExecConfig(spec.exe, spec.config), restart, target);
    VariableIsFound(ReplaceChar(spec.name, '%', "%%"), spec.envPath, userHome, runnerHome,
                    [EXEC + ExecConfig(spec.exe, spec.config)] + (restart + Install(target)), name);
  }

  lemma MachineVariableAsRead(spec: MachineSpec, target: string, userHome: Option<string>, name: string)
    requires WellFormedMachine(spec, target, userHome) && IsName(name)
    ensures FindSet(StrLines(RenderMachineUnit(spec, target, userHome)), name + "=")
         == VariableOf(spec.envPath, userHome, spec.home, name)
  {
    MachineIsNewlineless(spec, target, userHome);
    LinesReadBack(MachineLines(spec, target, userHome));
    var restart := ["ExecReload=/bin/kill -HUP $MAINPID", "Restart=always", "RestartSec=5"];
    RestartIsInert();
    AfterExecIsInert(ExecAll(spec.exe), restart, target);
    VariableIsFound(MACHINE_LABEL, spec.envPath, userHome, spec.home,
                    [EXEC + ExecAll(spec.exe)] + (restart + Install(target)), name);
  }

  lemma HomeKey()
    ensures "TOOLU_RUNNER_HOME" + "=" == HOME_KEY && IsName("TOOLU_RUNNER_HOME")
    ensures "TOOLU_RUNNER_HOME" != "PATH" && "TOOLU_RUNNER_HOME" != "HOME"
  {
    assert |"TOOLU_RUNNER_HOME"| == 17 && |"PATH"| == 4 && |"HOME"| == 4;
  }

  lemma UnitHomeAsRead(spec: ServiceSpec, target: string, userHome: Option<string>, runnerHome: Option<string>)
    requires WellFormed(spec, target, userHome, runnerHome)
    ensures ParseHome(RenderUnit(spec, target, userHome, runnerHome)) == AsRead(runnerHome)
  {
    HomeKey();
    UnitVariableAsRead(spec, target, userHome, runnerHome, "TOOLU_RUNNER_HOME");
  }

  lemma MachineHomeAsRead(spec: MachineSpec, target: string, userHome: Option<string>)
    requires WellFormedMachine(spec, target, userHome)
    ensures ParseHome(RenderMachineUnit(spec, target, userHome)) == AsRead(spec.home)
  {
    HomeKey();
    MachineVariableAsRead(spec, target, userHome, "TOOLU_RUNNER_HOME");
  }

  /** The pinned home survives exactly when it has no two adjacent dollar signs. */
  lemma HomeRoundTripIff(spec: ServiceSpec, target: string, userHome: Option<string>, runnerHome: Option<string>)
    requires WellFormed(spec, target, userHome, runnerHome)
    ensures ParseHome(RenderUnit(spec, target, userHome, runnerHome)) == runnerHome
       <==> (runnerHome.Some? ==> !HasDoubleDollar(runnerHome.value))
  {
    UnitHomeAsRead(spec, target, userHome, runnerHome);
    if runnerHome.Some? {
      CollapsedIffNoDoubleDollar(runnerHome.value);
    }
  }

  lemma MachineHomeRoundTripIff(spec: MachineSpec, target: string, userHome: Option<string>)
    requires WellFormedMachine(spec, target, userHome)
    ensures ParseHome(RenderMachineUnit(spec, target, userHome)) == spec.home
       <==> (spec.home.Some? ==> !HasDoubleDollar(spec.home.value))
  {
    MachineHomeAsRead(spec, target, userHome);
    if spec.home.Some? {
      CollapsedIffNoDoubleDollar(spec.home.value);
    }
  }
}
