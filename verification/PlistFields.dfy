/**
 Every field of a rendered property list reads back under its own key (crates/config/src/service_unit.rs).
 */
module PlistFields {
  import opened Text
  import opened Targets
  import opened XmlText
  import opened LaunchdPlist

  const LABEL: string := "Label"
  const OUT: string := "StandardOutPath"
  const ERR: string := "StandardErrorPath"

  /** What a plist is rendered from, every string as the caller gives it. */
  datatype Fields = Fields(name: string, workDir: string, path: string, home: Option<string>, out: string, err: string)

  function EnvOf(f: Fields): seq<(string, string)> {
    [(PATH, Escaped(f.path))] + if f.home.Some? then [(HOME, Escaped(f.home.value))] else []
  }

  function PlistOf(f: Fields, args: seq<string>): seq<Piece> {
    Plist(Escaped(f.name), args, Escaped(f.workDir), EnvOf(f), Escaped(f.out), Escaped(f.err))
  }

  // ------------------------------------------------------------------ what stands where

  function Entry(indent: string, key: string, value: string): seq<Piece> {
    StringEntry(indent, key, Escaped(value))
  }

  function HomeEntry(home: Option<string>): seq<Piece> {
    if home.Some? then Entry(DEEPER, HOME, home.value) else []
  }

  /** Up to the working directory, the path, the two log files. */
  function BeforeDirectory(f: Fields, args: seq<string>): seq<Piece> {
    Start(Escaped(f.name)) + ProgramArguments(args)
  }

  function BeforePath(f: Fields, args: seq<string>): seq<Piece> {
    BeforeDirectory(f, args) + (Entry(INDENT, DIRECTORY, f.workDir) + EnvOpen())
  }

  function BeforeOut(f: Fields, args: seq<string>): seq<Piece> {
    (BeforePath(f, args) + (Entry(DEEPER, PATH, f.path) + HomeEntry(f.home)))
    + (ClosePieces(INDENT, DICT_END) + (Flag("KeepAlive") + Flag("RunAtLoad")))
  }

  function BeforeErr(f: Fields, args: seq<string>): seq<Piece> {
    BeforeOut(f, args) + Entry(INDENT, OUT, f.out)
  }

  lemma EntriesOf(f: Fields)
    ensures Entries(EnvOf(f)) == Entry(DEEPER, PATH, f.path) + HomeEntry(f.home)
  {
    var home := if f.home.Some? then [(HOME, Escaped(f.home.value))] else [];
    EntriesCons(PATH, Escaped(f.path), home);
    if f.home.Some? {
      EntriesCons(HOME, Escaped(f.home.value), []);
      assert home + [] == home && HomeEntry(f.home) + Entries([]) == HomeEntry(f.home);
    }
  }

  lemma Regroup3(a: seq<Piece>, b: seq<Piece>, c: seq<Piece>, d: seq<Piece>)
    ensures a + (b + (c + d)) == (a + b) + (c + d) == (a + (b + c)) + d
  {
  }

  /** The pieces from the environment on, and from the footer on. */
  function FromPath(f: Fields): seq<Piece> {
    (Entry(DEEPER, PATH, f.path) + HomeEntry(f.home)) + (ClosePieces(INDENT, DICT_END)
      + Footer(Escaped(f.out), Escaped(f.err)))
  }

  lemma SplitAtPath(f: Fields, args: seq<string>)
    ensures PlistOf(f, args) == BeforePath(f, args) + FromPath(f)
    ensures PlistOf(f, args)
         == BeforeDirectory(f, args) + (Entry(INDENT, DIRECTORY, f.workDir) + (EnvOpen() + FromPath(f)))
  {
    EntriesOf(f);
    var dir := Entry(INDENT, DIRECTORY, f.workDir);
    ConcatAssoc(Start(Escaped(f.name)), ProgramArguments(args), dir + (EnvOpen() + FromPath(f)));
    Regroup3(BeforeDirectory(f, args), dir, EnvOpen(), FromPath(f));
  }

  lemma SplitAtLogs(f: Fields, args: seq<string>)
    ensures PlistOf(f, args)
         == BeforeOut(f, args) + (Entry(INDENT, OUT, f.out) + (Entry(INDENT, ERR, f.err) + Closing()))
    ensures PlistOf(f, args) == BeforeErr(f, args) + (Entry(INDENT, ERR, f.err) + Closing())
  {
    var env, close := Entry(DEEPER, PATH, f.path) + HomeEntry(f.home), ClosePieces(INDENT, DICT_END);
    var logs := Entry(INDENT, OUT, f.out) + (Entry(INDENT, ERR, f.err) + Closing());
    SplitAtPath(f, args);
    ConcatAssoc(Flag("KeepAlive"), Flag("RunAtLoad"), logs);
    ConcatAssoc(close, Flag("KeepAlive") + Flag("RunAtLoad"), logs);
    ConcatAssoc(BeforePath(f, args), env, close + Footer(Escaped(f.out), Escaped(f.err)));
    ConcatAssoc(BeforePath(f, args) + env, close + (Flag("KeepAlive") + Flag("RunAtLoad")), logs);
    ConcatAssoc(BeforeOut(f, args), Entry(INDENT, OUT, f.out), Entry(INDENT, ERR, f.err) + Closing());
  }

  // ------------------------------------------------------------------------ missed keys

  /** Not one of the keys written before the log files. */
  predicate IsLogKey(key: string) {
    key == OUT || key == ERR
  }

  lemma KeysDiffer()
    ensures |LABEL| == 5 && |ARGUMENTS| == 16 && |DIRECTORY| == 16 && |ENVIRONMENT| == 20 && |PATH| == 4 && |HOME| == 17
    ensures |OUT| == 15 && |ERR| == 17 && |"KeepAlive"| == 9 && |"RunAtLoad"| == 9
    ensures ARGUMENTS[0] == 'P' && DIRECTORY[0] == 'W' && HOME[0] == 'T' && ERR[0] == 'S'
    ensures NoAngle(LABEL) && NoAngle(DIRECTORY) && NoAngle(ENVIRONMENT) && NoAngle(PATH) && NoAngle(HOME)
    ensures NoAngle(OUT) && NoAngle(ERR)
  {
  }

  lemma EntryMissesKey(indent: string, k: string, value: string, key: string)
    requires NoAngle(indent) && NoAngle(k) && k != key
    ensures Misses(Entry(indent, k, value), key)
  {
    EscapedHasNoAngle(value);
    EntryMisses(indent, k, Escaped(value), key);
  }

  lemma DirectoryLead(f: Fields, args: seq<string>, key: string)
    requires NoAngles(args) && key != LABEL && key != ARGUMENTS
    ensures Misses(BeforeDirectory(f, args), key)
  {
    EscapedHasNoAngle(f.name);
    StartMisses(Escaped(f.name), key);
    ProgramArgumentsMiss(args, key);
    MissesConcat(Start(Escaped(f.name)), ProgramArguments(args), key);
  }

  lemma PathLead(f: Fields, args: seq<string>, key: string)
    requires NoAngles(args) && (key == PATH || IsLogKey(key))
    ensures Misses(BeforePath(f, args), key)
  {
    KeysDiffer();
    GapsArePlain();
    NamesAreSearchable();
    DirectoryLead(f, args, key);
    EntryMissesKey(INDENT, DIRECTORY, f.workDir, key);
    OpenMisses(INDENT, ENVIRONMENT, DICT, key);
    MissesConcat(Entry(INDENT, DIRECTORY, f.workDir), EnvOpen(), key);
    MissesConcat(BeforeDirectory(f, args), Entry(INDENT, DIRECTORY, f.workDir) + EnvOpen(), key);
  }

  lemma EnvMisses(f: Fields, key: string)
    requires IsLogKey(key)
    ensures Misses(Entry(DEEPER, PATH, f.path) + HomeEntry(f.home), key)
  {
    KeysDiffer();
    GapsArePlain();
    EntryMissesKey(DEEPER, PATH, f.path, key);
    if f.home.Some? {
      EntryMissesKey(DEEPER, HOME, f.home.value, key);
    }
    MissesConcat(Entry(DEEPER, PATH, f.path), HomeEntry(f.home), key);
  }

  lemma LogLead(f: Fields, args: seq<string>, key: string)
    requires NoAngles(args) && IsLogKey(key)
    ensures Misses(BeforeOut(f, args), key)
  {
    var env, flags := Entry(DEEPER, PATH, f.path) + HomeEntry(f.home), Flag("KeepAlive") + Flag("RunAtLoad");
    KeysDiffer();
    PathLead(f, args, key);
    EnvMisses(f, key);
    FixedTagsMiss(key);
    FlagsMiss(key);
    MissesConcat(Flag("KeepAlive"), Flag("RunAtLoad"), key);
    MissesConcat(ClosePieces(INDENT, DICT_END), flags, key);
    MissesConcat(BeforePath(f, args), env, key);
    MissesConcat(BeforePath(f, args) + env, ClosePieces(INDENT, DICT_END) + flags, key);
  }

  // ------------------------------------------------------------------------ the theorems

  lemma LabelReadsBack(f: Fields, args: seq<string>)
    ensures Field(Render(PlistOf(f, args)), LABEL) == Some(f.name)
  {
    var rest := ProgramArguments(args) + (StringEntry(INDENT, DIRECTORY, Escaped(f.workDir))
      + (EnvOpen() + (Entries(EnvOf(f)) + (ClosePieces(INDENT, DICT_END) + Footer(Escaped(f.out), Escaped(f.err))))));
    KeysDiffer();
    GapsArePlain();
    PrologMisses(LABEL);
    FixedTagsMiss(LABEL);
    MissesConcat(Prolog(), Opening(), LABEL);
    ConcatAssoc(Prolog(), Opening(), Entry(INDENT, LABEL, f.name));
    ConcatAssoc(Prolog() + Opening(), Entry(INDENT, LABEL, f.name), rest);
    FieldIsFound(Prolog() + Opening(), INDENT, LABEL, f.name, rest);
  }

  lemma DirectoryAndPathReadBack(f: Fields, args: seq<string>)
    requires NoAngles(args)
    ensures Field(Render(PlistOf(f, args)), DIRECTORY) == Some(f.workDir)
    ensures Field(Render(PlistOf(f, args)), PATH) == Some(f.path)
  {
    var close := ClosePieces(INDENT, DICT_END) + Footer(Escaped(f.out), Escaped(f.err));
    KeysDiffer();
    GapsArePlain();
    SplitAtPath(f, args);
    DirectoryLead(f, args, DIRECTORY);
    FieldIsFound(BeforeDirectory(f, args), INDENT, DIRECTORY, f.workDir, EnvOpen() + FromPath(f));
    PathLead(f, args, PATH);
    ConcatAssoc(Entry(DEEPER, PATH, f.path), HomeEntry(f.home), close);
    FieldIsFound(BeforePath(f, args), DEEPER, PATH, f.path, HomeEntry(f.home) + close);
  }

  lemma LogsReadBack(f: Fields, args: seq<string>)
    requires NoAngles(args)
    ensures Field(Render(PlistOf(f, args)), OUT) == Some(f.out)
    ensures Field(Render(PlistOf(f, args)), ERR) == Some(f.err)
  {
    KeysDiffer();
    GapsArePlain();
    SplitAtLogs(f, args);
    LogLead(f, args, OUT);
    FieldIsFound(BeforeOut(f, args), INDENT, OUT, f.out, Entry(INDENT, ERR, f.err) + Closing());
    LogLead(f, args, ERR);
    EntryMissesKey(INDENT, OUT, f.out, ERR);
    MissesConcat(BeforeOut(f, args), Entry(INDENT, OUT, f.out), ERR);
    FieldIsFound(BeforeErr(f, args), INDENT, ERR, f.err, Closing());
  }

  /** Label, working directory, `PATH` and the two log files of a registration plist. */
  lemma ServiceFieldsReadBack(spec: ServiceSpec)
    ensures var plist := LaunchdText(spec);
            && Field(plist, "Label") == Some(spec.name) && Field(plist, "WorkingDirectory") == Some(spec.workDir)
            && Field(plist, "PATH") == Some(spec.envPath)
            && Field(plist, "StandardOutPath") == Some(spec.out) && Field(plist, "StandardErrorPath") == Some(spec.err)
  {
    var f := Fields(spec.name, spec.workDir, spec.envPath, None, spec.out, spec.err);
    assert EnvOf(f) == [(PATH, Escaped(spec.envPath))];
    ServiceArgsUnescape(spec);
    LabelReadsBack(f, ServiceArgs(spec));
    DirectoryAndPathReadBack(f, ServiceArgs(spec));
    LogsReadBack(f, ServiceArgs(spec));
  }

  /** The same of the machine plist. */
  lemma MachineFieldsReadBack(spec: MachineSpec)
    ensures var plist := LaunchdMachineText(spec);
            && Field(plist, "Label") == Some(MACHINE_LABEL) && Field(plist, "WorkingDirectory") == Some(spec.workDir)
            && Field(plist, "PATH") == Some(spec.envPath)
            && Field(plist, "StandardOutPath") == Some(spec.out) && Field(plist, "StandardErrorPath") == Some(spec.err)
  {
    var f := Fields(MACHINE_LABEL, spec.workDir, spec.envPath, spec.home, spec.out, spec.err);
    assert EnvOf(f) == MachineEnv(spec);
    PlainIsItsOwnEscape(MACHINE_LABEL);
    MachineArgsUnescape(spec);
    LabelReadsBack(f, MachineArgs(spec));
    DirectoryAndPathReadBack(f, MachineArgs(spec));
    LogsReadBack(f, MachineArgs(spec));
  }
}
