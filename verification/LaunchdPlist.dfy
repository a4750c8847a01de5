/**
 launchd property lists (crates/config/src/service_unit.rs): the renderers, the parsers that read
 a plist back, and the round trip between them.
 */
module LaunchdPlist {
  import opened Text
  import opened Targets
  import opened XmlText

  const XML_DECLARATION: string := "?xml version=\"1.0\" encoding=\"UTF-8\"?"
  const DOCTYPE_NAME: string := "!DOCTYPE plist PUBLIC "
  const DOCTYPE_ID: string := "\"-//Apple//DTD PLIST 1.0//EN\" "
  const DOCTYPE_URL: string := "\"http://www.apple.com/DTDs/" + "PropertyList-1.0.dtd\""
  const DOCTYPE: string := DOCTYPE_NAME + DOCTYPE_ID + DOCTYPE_URL
  const PLIST: string := "plist version=\"1.0\""
  const HOME: string := "TOOLU_RUNNER_HOME"
  const PATH: string := "PATH"
  const ARGUMENTS: string := "ProgramArguments"
  const DIRECTORY: string := "WorkingDirectory"
  const ENVIRONMENT: string := "EnvironmentVariables"

  const STRING: string := "string"
  const STRING_END: string := "/string"
  const ARRAY: string := "array"
  const ARRAY_END: string := "/array"
  const DICT: string := "dict"
  const DICT_END: string := "/dict"

  const NL: string := "\n"
  const INDENT: string := "  "
  const DEEPER: string := "    "

  // ----------------------------------------------------------------------- rendering

  /** A closing `</string>` after a value. */
  function ValuePieces(value: string): seq<Piece> {
    [Plain(value), Tag(STRING_END), Plain(NL)]
  }

  function OpenPieces(indent: string, key: string, tag: string): seq<Piece> {
    [Plain(indent), Key(key), Plain(NL + indent), Tag(tag)]
  }

  function ClosePieces(indent: string, tag: string): seq<Piece> {
    [Plain(indent), Tag(tag), Plain(NL)]
  }

  /** `push_string_entry`: a key and its string, the value already escaped. */
  function StringEntry(indent: string, key: string, value: string): seq<Piece> {
    OpenPieces(indent, key, STRING) + ValuePieces(value)
  }

  function Argument(arg: string): seq<Piece> {
    [Plain(DEEPER), Tag(STRING)] + ValuePieces(arg)
  }

  function Arguments(args: seq<string>): seq<Piece> {
    if args == [] then [] else Argument(args[0]) + Arguments(args[1..])
  }

  /** `push_program_arguments`. */
  function ProgramArguments(args: seq<string>): seq<Piece> {
    OpenPieces(INDENT, ARGUMENTS, ARRAY) + ([Plain(NL)] + (Arguments(args) + ClosePieces(INDENT, ARRAY_END)))
  }

  function Entries(env: seq<(string, string)>): seq<Piece> {
    if env == [] then [] else StringEntry(DEEPER, env[0].0, env[0].1) + Entries(env[1..])
  }

  function EnvOpen(): seq<Piece> {
    OpenPieces(INDENT, ENVIRONMENT, DICT) + [Plain(NL)]
  }

  function Prolog(): seq<Piece> {
    [Tag(XML_DECLARATION), Plain(NL), Tag(DOCTYPE), Plain(NL)]
  }

  function Opening(): seq<Piece> {
    [Tag(PLIST), Plain(NL), Tag(DICT), Plain(NL)]
  }

  function Flag(key: string): seq<Piece> {
    OpenPieces(INDENT, key, "true/") + [Plain(NL)]
  }

  function Closing(): seq<Piece> {
    [Tag(DICT_END), Plain(NL), Tag("/plist"), Plain(NL)]
  }

  function Footer(out: string, err: string): seq<Piece> {
    Flag("KeepAlive") + (Flag("RunAtLoad")
      + (StringEntry(INDENT, "StandardOutPath", out) + (StringEntry(INDENT, "StandardErrorPath", err) + Closing())))
  }

  /** Everything before the program arguments. */
  function Start(name: string): seq<Piece> {
    Prolog() + (Opening() + StringEntry(INDENT, "Label", name))
  }

  /** `render_plist`, as the pieces it pushes; every argument is already escaped. */
  function Plist(name: string, args: seq<string>, workDir: string, env: seq<(string, string)>, out: string,
                 err: string): seq<Piece> {
    Start(name) + (ProgramArguments(args) + (StringEntry(INDENT, DIRECTORY, workDir)
      + (EnvOpen() + (Entries(env) + (ClosePieces(INDENT, DICT_END) + Footer(out, err))))))
  }

  function ServiceArgs(spec: ServiceSpec): seq<string> {
    [Escaped(spec.exe), RUN, CONFIG_FLAG, Escaped(spec.config)]
  }

  function MachineArgs(spec: MachineSpec): seq<string> {
    [Escaped(spec.exe), RUN, ALL_FLAG]
  }

  function MachineEnv(spec: MachineSpec): seq<(string, string)> {
    if spec.home.Some? then [(PATH, Escaped(spec.envPath)), (HOME, Escaped(spec.home.value))]
    else [(PATH, Escaped(spec.envPath))]
  }

  /** `launchd_plist`. */
  function LaunchdText(spec: ServiceSpec): string {
    Render(Plist(Escaped(spec.name), ServiceArgs(spec), Escaped(spec.workDir), [(PATH, Escaped(spec.envPath))],
                 Escaped(spec.out), Escaped(spec.err)))
  }

  /** `launchd_machine_plist`. */
  function LaunchdMachineText(spec: MachineSpec): string {
    Render(Plist(MACHINE_LABEL, MachineArgs(spec), Escaped(spec.workDir), MachineEnv(spec), Escaped(spec.out),
                 Escaped(spec.err)))
  }

  // ------------------------------------------------- the renderers' pushing, step by step

  lemma Pushed(s: string, before: seq<Piece>, piece: Piece)
    ensures (s + Render(before)) + PieceText(piece) == s + Render(before + [piece])
  {
    RenderConcat(before, [piece]);
    RenderOne(piece);
    ConcatAssoc(s, Render(before), PieceText(piece));
  }

  lemma PushedAll(s: string, before: seq<Piece>, more: seq<Piece>)
    ensures (s + Render(before)) + Render(more) == s + Render(before + more)
  {
    RenderConcat(before, more);
    ConcatAssoc(s, Render(before), Render(more));
  }

  method PushOpen(s: string, indent: string, key: string, tag: string) returns (out: string)
    ensures out == s + Render(OpenPieces(indent, key, tag))
  {
    out := s + indent;
    out := out + KeyText(key);
    out := out + (NL + indent);
    out := out + TagText(tag);
    assert s + Render([]) == s && [] + [Plain(indent)] == [Plain(indent)];
    Pushed(s, [], Plain(indent));
    Pushed(s, [Plain(indent)], Key(key));
    Pushed(s, [Plain(indent), Key(key)], Plain(NL + indent));
    Pushed(s, [Plain(indent), Key(key), Plain(NL + indent)], Tag(tag));
    assert OpenPieces(indent, key, tag) == [Plain(indent), Key(key), Plain(NL + indent)] + [Tag(tag)];
  }

  method PushStringEntry(s: string, indent: string, key: string, value: string) returns (out: string)
    ensures out == s + Render(StringEntry(indent, key, value))
  {
    out := PushOpen(s, indent, key, STRING);
    RenderValue(value);
    PushedAll(s, OpenPieces(indent, key, STRING), ValuePieces(value));
    out := out + (value + (TagText(STRING_END) + NL));
  }

  lemma {:induction false} ArgumentsSnoc(args: seq<string>, arg: string)
    ensures Arguments(args + [arg]) == Arguments(args) + Argument(arg)
  {
    if args == [] {
      assert args + [arg] == [arg] && [arg][1..] == [];
    } else {
      ArgumentsSnoc(args[1..], arg);
      assert (args + [arg])[1..] == args[1..] + [arg];
    }
  }

  lemma {:induction false} EntriesSnoc(env: seq<(string, string)>, key: string, value: string)
    ensures Entries(env + [(key, value)]) == Entries(env) + StringEntry(DEEPER, key, value)
  {
    if env == [] {
      assert env + [(key, value)] == [(key, value)] && [(key, value)][1..] == [];
    } else {
      EntriesSnoc(env[1..], key, value);
      assert (env + [(key, value)])[1..] == env[1..] + [(key, value)];
    }
  }

  lemma RenderArgument(arg: string)
    ensures Render(Argument(arg)) == DEEPER + (TagText(STRING) + (arg + (TagText(STRING_END) + NL)))
  {
    assert Argument(arg) == [Plain(DEEPER)] + ([Tag(STRING)] + ValuePieces(arg));
    RenderCons(Plain(DEEPER), [Tag(STRING)] + ValuePieces(arg));
    RenderCons(Tag(STRING), ValuePieces(arg));
    RenderValue(arg);
  }

  lemma NextArgumentPushed(s: string, args: seq<string>, arg: string)
    ensures (s + Render(Arguments(args))) + (DEEPER + (TagText(STRING) + (arg + (TagText(STRING_END) + NL))))
         == s + Render(Arguments(args + [arg]))
  {
    ArgumentsSnoc(args, arg);
    RenderArgument(arg);
    PushedAll(s, Arguments(args), Argument(arg));
  }

  method PushArguments(s: string, args: seq<string>) returns (out: string)
    ensures out == s + Render(Arguments(args))
  {
    out := s;
    var i := 0;
    while i < |args|
      invariant 0 <= i <= |args|
      invariant out == s + Render(Arguments(args[..i]))
    {
      NextArgumentPushed(s, args[..i], args[i]);
      assert args[..i + 1] == args[..i] + [args[i]];
      out := out + (DEEPER + (TagText(STRING) + (args[i] + (TagText(STRING_END) + NL))));
      i := i + 1;
    }
    assert args[..i] == args;
  }

  method PushEntries(s: string, env: seq<(string, string)>) returns (out: string)
    ensures out == s + Render(Entries(env))
  {
    out := s;
    var i := 0;
    while i < |env|
      invariant 0 <= i <= |env|
      invariant out == s + Render(Entries(env[..i]))
    {
      EntriesSnoc(env[..i], env[i].0, env[i].1);
      PushedAll(s, Entries(env[..i]), StringEntry(DEEPER, env[i].0, env[i].1));
      assert env[..i + 1] == env[..i] + [(env[i].0, env[i].1)];
      out := PushStringEntry(out, DEEPER, env[i].0, env[i].1);
      i := i + 1;
    }
    assert env[..i] == env;
  }

  lemma ClosePushed(s: string, before: seq<Piece>, end: string)
    ensures (s + Render(before)) + (INDENT + (TagText(end) + NL)) == s + Render(before + ClosePieces(INDENT, end))
  {
    RenderClose(INDENT, end, []);
    assert ClosePieces(INDENT, end) + [] == ClosePieces(INDENT, end) && NL + Render([]) == NL;
    PushedAll(s, before, ClosePieces(INDENT, end));
  }

  lemma Bracketed(s: string, open: seq<Piece>, inner: seq<Piece>, end: string)
    ensures (((s + Render(open)) + NL) + Render(inner)) + (INDENT + (TagText(end) + NL))
         == s + Render(open + ([Plain(NL)] + (inner + ClosePieces(INDENT, end))))
  {
    Pushed(s, open, Plain(NL));
    PushedAll(s, open + [Plain(NL)], inner);
    ClosePushed(s, (open + [Plain(NL)]) + inner, end);
    RegroupBracket(open, [Plain(NL)], inner, ClosePieces(INDENT, end));
  }

  lemma RegroupBracket(a: seq<Piece>, b: seq<Piece>, c: seq<Piece>, d: seq<Piece>)
    ensures ((a + b) + c) + d == a + (b + (c + d))
  {
  }

  /** `push_program_arguments`: one `<string>` per argument. */
  method PushProgramArguments(s: string, args: seq<string>) returns (out: string)
    ensures out == s + Render(ProgramArguments(args))
  {
    Bracketed(s, OpenPieces(INDENT, ARGUMENTS, ARRAY), Arguments(args), ARRAY_END);
    out := PushOpen(s, INDENT, ARGUMENTS, ARRAY);
    out := PushArguments(out + NL, args);
    out := out + (INDENT + (TagText(ARRAY_END) + NL));
  }

  /** `push_environment`: one string entry per variable. */
  method PushEnvironment(s: string, env: seq<(string, string)>) returns (out: string)
    ensures out == s + Render(EnvOpen() + (Entries(env) + ClosePieces(INDENT, DICT_END)))
  {
    ghost var open := OpenPieces(INDENT, ENVIRONMENT, DICT);
    Bracketed(s, open, Entries(env), DICT_END);
    ConcatAssoc(open, [Plain(NL)], Entries(env) + ClosePieces(INDENT, DICT_END));
    out := PushOpen(s, INDENT, ENVIRONMENT, DICT);
    out := PushEntries(out + NL, env);
    out := out + (INDENT + (TagText(DICT_END) + NL));
  }

  // ------------------------------------------------------------------------- parsing

  /** `str::split`. */
  function SplitAll(s: string, p: string): seq<string>
    requires p != []
    decreases |s|
  {
    match SplitOnce(s, p)
    case None => [s]
    case Some((before, after)) =>
      SplitOnceShorter(s, p);
      [before] + SplitAll(after, p)
  }

  lemma {:induction false} SplitOnceShorter(s: string, p: string)
    requires p != [] && SplitOnce(s, p).Some?
    ensures |SplitOnce(s, p).value.1| < |s|
  {
    if !(p <= s) {
      SplitOnceShorter(s[1..], p);
    }
  }

  /** The text before `</string>` of each chunk that has one. */
  function ChunkValues(chunks: seq<string>): seq<string> {
    if chunks == [] then []
    else match SplitOnce(chunks[0], TagText(STRING_END))
      case None => ChunkValues(chunks[1..])
      case Some((value, _)) => [value] + ChunkValues(chunks[1..])
  }

  function UnescapeAll(values: seq<string>): seq<string> {
    if values == [] then [] else [Unescape(values[0])] + UnescapeAll(values[1..])
  }

  function After(r: Option<(string, string)>): Option<string> {
    if r.Some? then Some(r.value.1) else None
  }

  function Before(r: Option<(string, string)>): Option<string> {
    if r.Some? then Some(r.value.0) else None
  }

  /** The text between the array tags that follow the `ProgramArguments` key. */
  function ArrayText(plist: string): Option<string> {
    match After(SplitOnce(plist, KeyText(ARGUMENTS)))
    case None => None
    case Some(after) =>
      match After(SplitOnce(after, TagText(ARRAY)))
      case None => None
      case Some(rest) => Before(SplitOnce(rest, TagText(ARRAY_END)))
  }

  function ArgumentsIn(body: string): seq<string> {
    UnescapeAll(ChunkValues(SplitAll(body, TagText(STRING))[1..]))
  }

  /** `parse_launchd_target`. */
  function ParseTarget(plist: string): Option<Supervises> {
    match ArrayText(plist)
    case None => None
    case Some(body) => TargetFromArgs(ArgumentsIn(body))
  }

  /** The text of the string element that follows a key. */
  function StringAfter(plist: string, key: string): Option<string> {
    match After(SplitOnce(plist, KeyText(key)))
    case None => None
    case Some(after) =>
      match After(SplitOnce(after, TagText(STRING)))
      case None => None
      case Some(rest) => Before(SplitOnce(rest, TagText(STRING_END)))
  }

  /** That text as it was before escaping. */
  function Field(plist: string, key: string): Option<string> {
    match StringAfter(plist, key)
    case None => None
    case Some(value) => Some(Unescape(value))
  }

  /** `parse_launchd_home`. */
  function ParseHome(plist: string): Option<string> {
    Field(plist, HOME)
  }

  // ------------------------------------------------------------------ names and pieces

  predicate Searchable(name: string) {
    NoAngle(name) && name != "key" && name != "/key"
  }

  lemma NamesAreSearchable()
    ensures Searchable(STRING) && Searchable(STRING_END) && Searchable(ARRAY) && Searchable(ARRAY_END)
    ensures Searchable(DICT) && Searchable(DICT_END)
    ensures STRING != STRING_END && STRING != ARRAY_END && STRING_END != ARRAY_END
  {
    assert |STRING| == 6 && |STRING_END| == 7 && |ARRAY| == 5 && |ARRAY_END| == 6 && |DICT| == 4 && |DICT_END| == 5;
    assert |"key"| == 3 && |"/key"| == 4 && DICT[0] == 'd' && "/key"[0] == '/';
    assert STRING[0] == 's' && ARRAY_END[0] == '/';
  }

  lemma GapsArePlain()
    ensures NoAngle(NL) && NoAngle(INDENT) && NoAngle(DEEPER) && NoAngle(NL + INDENT) && NoAngle(NL + DEEPER)
  {
  }

  lemma RenderCons(piece: Piece, rest: seq<Piece>)
    ensures Render([piece] + rest) == PieceText(piece) + Render(rest)
  {
    assert ([piece] + rest)[1..] == rest;
  }

  lemma RenderOne(piece: Piece)
    ensures Render([piece]) == PieceText(piece)
  {
    RenderCons(piece, []);
    assert [piece] + [] == [piece];
    assert PieceText(piece) + [] == PieceText(piece);
  }

  lemma RenderValue(value: string)
    ensures Render(ValuePieces(value)) == value + (TagText(STRING_END) + NL)
  {
    assert ValuePieces(value) == [Plain(value)] + ([Tag(STRING_END)] + [Plain(NL)]);
    RenderCons(Plain(value), [Tag(STRING_END)] + [Plain(NL)]);
    RenderCons(Tag(STRING_END), [Plain(NL)]);
    RenderOne(Plain(NL));
  }

  lemma RenderClose(indent: string, tag: string, rest: seq<Piece>)
    ensures Render(ClosePieces(indent, tag) + rest) == indent + (TagText(tag) + (NL + Render(rest)))
  {
    assert ClosePieces(indent, tag) + rest == [Plain(indent)] + ([Tag(tag)] + ([Plain(NL)] + rest));
    RenderCons(Plain(indent), [Tag(tag)] + ([Plain(NL)] + rest));
    RenderCons(Tag(tag), [Plain(NL)] + rest);
    RenderCons(Plain(NL), rest);
  }

  lemma RenderOpen(indent: string, key: string, tag: string, rest: seq<Piece>)
    ensures Render(OpenPieces(indent, key, tag) + rest)
         == indent + (KeyText(key) + ((NL + indent) + (TagText(tag) + Render(rest))))
  {
    assert OpenPieces(indent, key, tag) + rest
        == [Plain(indent)] + ([Key(key)] + ([Plain(NL + indent)] + ([Tag(tag)] + rest)));
    RenderCons(Plain(indent), [Key(key)] + ([Plain(NL + indent)] + ([Tag(tag)] + rest)));
    RenderCons(Key(key), [Plain(NL + indent)] + ([Tag(tag)] + rest));
    RenderCons(Plain(NL + indent), [Tag(tag)] + rest);
    RenderCons(Tag(tag), rest);
  }

  lemma RenderArguments(args: seq<string>)
    requires args != []
    ensures Render(Arguments(args))
         == DEEPER + (TagText(STRING) + (Render(ValuePieces(args[0])) + Render(Arguments(args[1..]))))
  {
    var v, r := ValuePieces(args[0]), Arguments(args[1..]);
    assert Arguments(args) == [Plain(DEEPER)] + ([Tag(STRING)] + (v + r));
    RenderCons(Plain(DEEPER), [Tag(STRING)] + (v + r));
    RenderCons(Tag(STRING), v + r);
    RenderConcat(v, r);
  }

  // ------------------------------------------------------------------ locating a tag

  predicate ClearOfTag(pieces: seq<Piece>, name: string) {
    AllWellformed(pieces) && forall i :: 0 <= i < |pieces| ==> MissesTag(pieces[i], name)
  }

  predicate Misses(pieces: seq<Piece>, key: string) {
    AllWellformed(pieces) && forall i :: 0 <= i < |pieces| ==> MissesKey(pieces[i], key)
  }

  lemma RenderGap(lead: seq<Piece>, gap: string, rest: string)
    ensures Render(lead + [Plain(gap)]) == Render(lead) + gap
    ensures Render(lead + [Plain(gap)]) + rest == Render(lead) + (gap + rest)
  {
    RenderConcat(lead, [Plain(gap)]);
    RenderOne(Plain(gap));
    ConcatAssoc(Render(lead), gap, rest);
  }

  /** Splitting that passes over what stands before the pattern stops right at it. */
  lemma HitPast(before: string, more: string, p: string)
    requires p != [] && SplitOnce(before + (p + more), p) == Prepend(before, SplitOnce(p + more, p))
    ensures SplitOnce(before + (p + more), p) == Some((before, more))
  {
    SplitOnceHit(more, p);
    assert before + [] == before;
  }

  /** Splitting at the tag that follows these pieces and a plain gap. */
  lemma SplitAtTag(lead: seq<Piece>, gap: string, more: string, name: string)
    requires ClearOfTag(lead, name) && NoAngle(gap) && Searchable(name)
    ensures SplitOnce(Render(lead) + (gap + (TagText(name) + more)), TagText(name)) == Some((Render(lead) + gap, more))
  {
    RenderGap(lead, gap, TagText(name) + more);
    SplitPastTag(lead + [Plain(gap)], TagText(name) + more, name);
    HitPast(Render(lead + [Plain(gap)]), more, TagText(name));
  }

  lemma SplitAtNextTag(gap: string, more: string, name: string)
    requires NoAngle(gap) && Searchable(name)
    ensures SplitOnce(gap + (TagText(name) + more), TagText(name)) == Some((gap, more))
  {
    SplitAtTag([], gap, more, name);
    var s := gap + (TagText(name) + more);
    assert Render([]) + s == s && Render([]) + gap == gap;
  }

  lemma NoTagLeft(pieces: seq<Piece>, name: string)
    requires ClearOfTag(pieces, name) && Searchable(name)
    ensures SplitOnce(Render(pieces), TagText(name)) == None
  {
    SplitPastTag(pieces, [], name);
    assert Render(pieces) + [] == Render(pieces);
    assert SplitOnce([], TagText(name)) == None;
  }

  lemma SplitAtKey(lead: seq<Piece>, gap: string, more: string, key: string)
    requires Misses(lead, key) && NoAngle(gap) && NoAngle(key)
    ensures SplitOnce(Render(lead) + (gap + (KeyText(key) + more)), KeyText(key)) == Some((Render(lead) + gap, more))
  {
    RenderGap(lead, gap, KeyText(key) + more);
    SplitPastKey(lead + [Plain(gap)], KeyText(key) + more, key);
    HitPast(Render(lead + [Plain(gap)]), more, KeyText(key));
  }

  // ------------------------------------------------------------- reading the arguments

  predicate NoAngles(args: seq<string>) {
    forall i :: 0 <= i < |args| ==> NoAngle(args[i])
  }

  /** What stands between two arguments, or after the last one. */
  function Gap(args: seq<string>): string {
    if args == [] then INDENT else DEEPER
  }

  lemma SplitAllNone(s: string, p: string)
    requires p != [] && SplitOnce(s, p) == None
    ensures SplitAll(s, p) == [s]
  {
  }

  lemma SplitAllSome(s: string, p: string, before: string, after: string)
    requires p != [] && SplitOnce(s, p) == Some((before, after))
    ensures SplitAll(s, p) == [before] + SplitAll(after, p)
  {
  }

  lemma NoMoreArguments(lead: seq<Piece>, gap: string)
    requires ClearOfTag(lead, STRING) && NoAngle(gap)
    ensures SplitAll(Render(lead) + gap, TagText(STRING)) == [Render(lead) + gap]
  {
    NamesAreSearchable();
    RenderConcat(lead, [Plain(gap)]);
    RenderOne(Plain(gap));
    NoTagLeft(lead + [Plain(gap)], STRING);
    SplitAllNone(Render(lead) + gap, TagText(STRING));
  }

  lemma NextArgument(lead: seq<Piece>, args: seq<string>)
    requires args != [] && ClearOfTag(lead, STRING)
    ensures var text := Render(lead) + (Render(Arguments(args)) + INDENT);
            var rest := Render(ValuePieces(args[0])) + (Render(Arguments(args[1..])) + INDENT);
            SplitAll(text, TagText(STRING)) == [Render(lead) + DEEPER] + SplitAll(rest, TagText(STRING))
  {
    var v, r := Render(ValuePieces(args[0])), Render(Arguments(args[1..]));
    NamesAreSearchable();
    GapsArePlain();
    RenderArguments(args);
    Regroup(DEEPER, TagText(STRING), v, r, INDENT);
    SplitAtTag(lead, DEEPER, v + (r + INDENT), STRING);
    SplitAllSome(Render(lead) + (Render(Arguments(args)) + INDENT), TagText(STRING), Render(lead) + DEEPER,
                 v + (r + INDENT));
  }

  lemma Regroup(a: string, b: string, c: string, d: string, e: string)
    ensures (a + (b + (c + d))) + e == a + (b + (c + (d + e)))
  {
  }

  lemma ValuePiecesMiss(value: string)
    requires NoAngle(value)
    ensures ClearOfTag(ValuePieces(value), STRING)
  {
    NamesAreSearchable();
    GapsArePlain();
  }

  lemma FirstChunkValue(value: string, gap: string)
    requires NoAngle(value)
    ensures Before(SplitOnce(Render(ValuePieces(value)) + gap, TagText(STRING_END))) == Some(value)
  {
    NamesAreSearchable();
    RenderValue(value);
    ConcatAssoc(value, TagText(STRING_END) + NL, gap);
    ConcatAssoc(TagText(STRING_END), NL, gap);
    SplitAtNextTag(value, NL + gap, STRING_END);
  }

  lemma NextChunk(chunks: seq<string>, args: seq<string>)
    requires args != [] && NoAngle(args[0]) && chunks != []
    requires chunks[0] == Render(ValuePieces(args[0])) + Gap(args[1..]) && ChunkValues(chunks[1..]) == args[1..]
    ensures ChunkValues(chunks) == args
  {
    FirstChunkValue(args[0], Gap(args[1..]));
    assert args == [args[0]] + args[1..];
  }

  /** The chunks between `<string>` tags: the first holds what led up to it, each other its value. */
  lemma {:induction false} ArgumentChunks(lead: seq<Piece>, args: seq<string>)
    requires ClearOfTag(lead, STRING) && NoAngles(args)
    ensures var chunks := SplitAll(Render(lead) + (Render(Arguments(args)) + INDENT), TagText(STRING));
            && chunks != []
            && chunks[0] == Render(lead) + Gap(args)
            && ChunkValues(chunks[1..]) == args
    decreases |args|
  {
    var text := Render(lead) + (Render(Arguments(args)) + INDENT);
    if args == [] {
      assert Render(Arguments(args)) + INDENT == INDENT;
      GapsArePlain();
      NoMoreArguments(lead, INDENT);
      assert [text][1..] == [];
    } else {
      var chunks := SplitAll(Render(ValuePieces(args[0])) + (Render(Arguments(args[1..])) + INDENT), TagText(STRING));
      NextArgument(lead, args);
      ValuePiecesMiss(args[0]);
      ArgumentChunks(ValuePieces(args[0]), args[1..]);
      NextChunk(chunks, args);
      assert ([Render(lead) + DEEPER] + chunks)[1..] == chunks;
    }
  }

  lemma ArgumentsAreRead(args: seq<string>)
    requires NoAngles(args)
    ensures ArgumentsIn(NL + (Render(Arguments(args)) + INDENT)) == UnescapeAll(args)
  {
    GapsArePlain();
    RenderOne(Plain(NL));
    ArgumentChunks([Plain(NL)], args);
  }

  // ------------------------------------------------------------- reading the document

  lemma {:induction false} ArgumentsMiss(args: seq<string>, key: string)
    requires NoAngles(args)
    ensures ClearOfTag(Arguments(args), ARRAY_END) && Misses(Arguments(args), key)
  {
    if args != [] {
      ArgumentsMiss(args[1..], key);
      NamesAreSearchable();
      GapsArePlain();
      assert ClearOfTag(Argument(args[0]), ARRAY_END) && Misses(Argument(args[0]), key);
    }
  }

  lemma ArrayIsIsolated(args: seq<string>, more: string)
    requires NoAngles(args)
    ensures Before(SplitOnce(NL + (Render(Arguments(args)) + (INDENT + (TagText(ARRAY_END) + more))),
                             TagText(ARRAY_END)))
         == Some(NL + (Render(Arguments(args)) + INDENT))
  {
    var lead := [Plain(NL)] + Arguments(args);
    NamesAreSearchable();
    GapsArePlain();
    ArgumentsMiss(args, HOME);
    RenderCons(Plain(NL), Arguments(args));
    ConcatAssoc(NL, Render(Arguments(args)), INDENT + (TagText(ARRAY_END) + more));
    ConcatAssoc(NL, Render(Arguments(args)), INDENT);
    SplitAtTag(lead, INDENT, more, ARRAY_END);
  }

  lemma RenderProgramArguments(args: seq<string>, rest: seq<Piece>)
    ensures Render(ProgramArguments(args) + rest)
         == INDENT + (KeyText(ARGUMENTS) + ((NL + INDENT) + (TagText(ARRAY)
            + (NL + (Render(Arguments(args)) + (INDENT + (TagText(ARRAY_END) + (NL + Render(rest)))))))))
  {
    var close := ClosePieces(INDENT, ARRAY_END) + rest;
    var inner := [Plain(NL)] + (Arguments(args) + close);
    assert ProgramArguments(args) + rest == OpenPieces(INDENT, ARGUMENTS, ARRAY) + inner;
    RenderOpen(INDENT, ARGUMENTS, ARRAY, inner);
    RenderCons(Plain(NL), Arguments(args) + close);
    RenderConcat(Arguments(args), close);
    RenderClose(INDENT, ARRAY_END, rest);
  }

  lemma ArrayTextIn(lead: seq<Piece>, args: seq<string>, more: string)
    requires Misses(lead, ARGUMENTS) && NoAngles(args)
    ensures ArrayText(Render(lead) + (INDENT + (KeyText(ARGUMENTS) + ((NL + INDENT) + (TagText(ARRAY)
              + (NL + (Render(Arguments(args)) + (INDENT + (TagText(ARRAY_END) + more)))))))))
         == Some(NL + (Render(Arguments(args)) + INDENT))
  {
    var inside := NL + (Render(Arguments(args)) + (INDENT + (TagText(ARRAY_END) + more)));
    NamesAreSearchable();
    GapsArePlain();
    assert NoAngle(ARGUMENTS);
    SplitAtKey(lead, INDENT, (NL + INDENT) + (TagText(ARRAY) + inside), ARGUMENTS);
    SplitAtNextTag(NL + INDENT, inside, ARRAY);
    ArrayIsIsolated(args, more);
  }

  /** Whatever pieces come before and after, the arguments are read back one by one. */
  lemma TargetIsFound(lead: seq<Piece>, args: seq<string>, rest: seq<Piece>)
    requires Misses(lead, ARGUMENTS) && NoAngles(args)
    ensures ParseTarget(Render(lead + (ProgramArguments(args) + rest))) == TargetFromArgs(UnescapeAll(args))
  {
    RenderConcat(lead, ProgramArguments(args) + rest);
    RenderProgramArguments(args, rest);
    ArrayTextIn(lead, args, NL + Render(rest));
    ArgumentsAreRead(args);
  }

  /** The value of the string element after a key, still escaped. */
  lemma StringAfterIn(lead: seq<Piece>, indent: string, key: string, value: string, more: string)
    requires Misses(lead, key) && NoAngle(indent) && NoAngle(key) && NoAngle(value)
    ensures StringAfter(Render(lead) + (indent + (KeyText(key) + ((NL + indent)
              + (TagText(STRING) + (value + (TagText(STRING_END) + more)))))), key)
         == Some(value)
  {
    var inside := value + (TagText(STRING_END) + more);
    NamesAreSearchable();
    GapsArePlain();
    NoAngleConcat(NL, indent);
    SplitAtKey(lead, indent, (NL + indent) + (TagText(STRING) + inside), key);
    SplitAtNextTag(NL + indent, inside, STRING);
    SplitAtNextTag(value, more, STRING_END);
  }

  /** Whatever comes before and after, a string entry is read back. */
  lemma FieldIsFound(lead: seq<Piece>, indent: string, key: string, value: string, rest: seq<Piece>)
    requires Misses(lead, key) && NoAngle(indent) && NoAngle(key)
    ensures Field(Render(lead + (StringEntry(indent, key, Escaped(value)) + rest)), key) == Some(value)
  {
    RenderConcat(lead, StringEntry(indent, key, Escaped(value)) + rest);
    RenderEntry(indent, key, Escaped(value), rest);
    EscapedHasNoAngle(value);
    StringAfterIn(lead, indent, key, Escaped(value), NL + Render(rest));
    UnescapeUndoesEscape(value);
  }

  lemma RenderEntry(indent: string, key: string, value: string, rest: seq<Piece>)
    ensures Render(StringEntry(indent, key, value) + rest)
         == indent + (KeyText(key) + ((NL + indent)
            + (TagText(STRING) + (value + (TagText(STRING_END) + (NL + Render(rest)))))))
  {
    assert StringEntry(indent, key, value) + rest == OpenPieces(indent, key, STRING) + (ValuePieces(value) + rest);
    RenderOpen(indent, key, STRING, ValuePieces(value) + rest);
    RenderConcat(ValuePieces(value), rest);
    RenderValue(value);
    ConcatAssoc(value, TagText(STRING_END) + NL, Render(rest));
    ConcatAssoc(TagText(STRING_END), NL, Render(rest));
  }

  lemma NoHome(pieces: seq<Piece>)
    requires Misses(pieces, HOME)
    ensures ParseHome(Render(pieces)) == None
  {
    assert NoAngle(HOME);
    SplitPastKey(pieces, [], HOME);
    assert Render(pieces) + [] == Render(pieces);
    assert SplitOnce([], KeyText(HOME)) == None;
  }

  // ---------------------------------------------------------- the fixed parts of a plist

  lemma MissesConcat(a: seq<Piece>, b: seq<Piece>, key: string)
    requires Misses(a, key) && Misses(b, key)
    ensures Misses(a + b, key)
  {
  }

  lemma NoAngleConcat(a: string, b: string)
    requires NoAngle(a) && NoAngle(b)
    ensures NoAngle(a + b)
  {
  }

  lemma DoctypeHasNoAngle()
    ensures NoAngle(DOCTYPE) && DOCTYPE[0] == '!'
  {
    assert NoAngle(DOCTYPE_NAME);
    assert NoAngle(DOCTYPE_ID);
    assert NoAngle("\"http://www.apple.com/DTDs/");
    assert NoAngle("PropertyList-1.0.dtd\"");
    NoAngleConcat("\"http://www.apple.com/DTDs/", "PropertyList-1.0.dtd\"");
    NoAngleConcat(DOCTYPE_NAME, DOCTYPE_ID);
    NoAngleConcat(DOCTYPE_NAME + DOCTYPE_ID, DOCTYPE_URL);
    assert DOCTYPE[0] == DOCTYPE_NAME[0];
  }

  lemma TagIsWellformed(name: string)
    requires NoAngle(name) && name != [] && name[0] != 'k'
    ensures Wellformed(Tag(name))
  {
    assert "key"[0] == 'k';
  }

  lemma PrologMisses(key: string)
    ensures Misses(Prolog(), key)
  {
    DoctypeHasNoAngle();
    GapsArePlain();
    TagIsWellformed(DOCTYPE);
    TagIsWellformed(XML_DECLARATION);
  }

  lemma FixedTagsMiss(key: string)
    ensures Misses(Opening(), key) && Misses(Closing(), key) && Misses(ClosePieces(INDENT, DICT_END), key)
  {
    GapsArePlain();
    TagIsWellformed(PLIST);
    TagIsWellformed(DICT);
    TagIsWellformed(DICT_END);
    TagIsWellformed("/plist");
  }

  lemma OpenMisses(indent: string, k: string, tag: string, key: string)
    requires NoAngle(indent) && NoAngle(k) && k != key && Wellformed(Tag(tag))
    ensures Misses(OpenPieces(indent, k, tag), key) && Misses(OpenPieces(indent, k, tag) + [Plain(NL)], key)
  {
    GapsArePlain();
    NoAngleConcat(NL, indent);
  }

  lemma EntryMisses(indent: string, k: string, value: string, key: string)
    requires NoAngle(indent) && NoAngle(k) && NoAngle(value) && k != key
    ensures Misses(StringEntry(indent, k, value), key)
  {
    NamesAreSearchable();
    GapsArePlain();
    OpenMisses(indent, k, STRING, key);
    MissesConcat(OpenPieces(indent, k, STRING), ValuePieces(value), key);
  }

  lemma StartMisses(name: string, key: string)
    requires NoAngle(name) && "Label" != key
    ensures Misses(Start(name), key)
  {
    GapsArePlain();
    PrologMisses(key);
    FixedTagsMiss(key);
    EntryMisses(INDENT, "Label", name, key);
    MissesConcat(Opening(), StringEntry(INDENT, "Label", name), key);
    MissesConcat(Prolog(), Opening() + StringEntry(INDENT, "Label", name), key);
  }

  lemma FlagsMiss(key: string)
    requires key != "KeepAlive" && key != "RunAtLoad"
    ensures Misses(Flag("KeepAlive"), key) && Misses(Flag("RunAtLoad"), key)
  {
    GapsArePlain();
    TagIsWellformed("true/");
    OpenMisses(INDENT, "KeepAlive", "true/", key);
    OpenMisses(INDENT, "RunAtLoad", "true/", key);
  }

  lemma FooterMisses(out: string, err: string)
    requires NoAngle(out) && NoAngle(err)
    ensures Misses(Footer(out, err), HOME)
  {
    var o, e := StringEntry(INDENT, "StandardOutPath", out), StringEntry(INDENT, "StandardErrorPath", err);
    GapsArePlain();
    FixedTagsMiss(HOME);
    assert HOME[0] == 'T' && "KeepAlive"[0] == 'K' && "RunAtLoad"[0] == 'R';
    assert "StandardOutPath"[0] == 'S' && "StandardErrorPath"[0] == 'S';
    FlagsMiss(HOME);
    EntryMisses(INDENT, "StandardOutPath", out, HOME);
    EntryMisses(INDENT, "StandardErrorPath", err, HOME);
    MissesConcat(e, Closing(), HOME);
    MissesConcat(o, e + Closing(), HOME);
    MissesConcat(Flag("RunAtLoad"), o + (e + Closing()), HOME);
    MissesConcat(Flag("KeepAlive"), Flag("RunAtLoad") + (o + (e + Closing())), HOME);
  }

  lemma ProgramArgumentsMiss(args: seq<string>, key: string)
    requires NoAngles(args) && key != ARGUMENTS
    ensures Misses(ProgramArguments(args), key)
  {
    NamesAreSearchable();
    GapsArePlain();
    ArgumentsMiss(args, key);
    assert NoAngle(ARGUMENTS);
    OpenMisses(INDENT, ARGUMENTS, ARRAY, key);
    assert Misses(ClosePieces(INDENT, ARRAY_END), key);
    MissesConcat(Arguments(args), ClosePieces(INDENT, ARRAY_END), key);
    MissesConcat([Plain(NL)], Arguments(args) + ClosePieces(INDENT, ARRAY_END), key);
    MissesConcat(OpenPieces(INDENT, ARGUMENTS, ARRAY),
                 [Plain(NL)] + (Arguments(args) + ClosePieces(INDENT, ARRAY_END)), key);
  }

  /** The middle of a plist, up to where a pinned home would stand. */
  function Middle(args: seq<string>, workDir: string, path: string): seq<Piece> {
    ProgramArguments(args) + (StringEntry(INDENT, DIRECTORY, workDir) + (EnvOpen() + StringEntry(DEEPER, PATH, path)))
  }

  lemma MiddleKeys()
    ensures DIRECTORY != HOME && PATH != HOME && ENVIRONMENT != HOME
    ensures NoAngle(DIRECTORY) && NoAngle(PATH) && NoAngle(ENVIRONMENT)
  {
    assert DIRECTORY[0] == 'W' && PATH[0] == 'P' && ENVIRONMENT[0] == 'E' && HOME[0] == 'T';
  }

  lemma MiddleMissesHome(args: seq<string>, workDir: string, path: string)
    requires NoAngles(args) && NoAngle(workDir) && NoAngle(path)
    ensures Misses(Middle(args, workDir, path), HOME)
  {
    var dir, entry := StringEntry(INDENT, DIRECTORY, workDir), StringEntry(DEEPER, PATH, path);
    NamesAreSearchable();
    GapsArePlain();
    assert ARGUMENTS[0] == 'P' && HOME[0] == 'T';
    ProgramArgumentsMiss(args, HOME);
    MiddleKeys();
    EntryMisses(INDENT, DIRECTORY, workDir, HOME);
    EntryMisses(DEEPER, PATH, path, HOME);
    OpenMisses(INDENT, ENVIRONMENT, DICT, HOME);
    MissesConcat(EnvOpen(), entry, HOME);
    MissesConcat(dir, EnvOpen() + entry, HOME);
    MissesConcat(ProgramArguments(args), dir + (EnvOpen() + entry), HOME);
  }

  // ----------------------------------------------------------------- the round trips

  /** Text the escape leaves alone. */
  predicate NeedsNoEscape(s: string) {
    forall i :: 0 <= i < |s| ==> XmlChar(s[i]) == [s[i]]
  }

  lemma {:induction false} PlainIsItsOwnEscape(s: string)
    requires NeedsNoEscape(s)
    ensures Escaped(s) == s
  {
    if s != [] {
      PlainIsItsOwnEscape(s[1..]);
      assert s == [s[0]] + s[1..];
    }
  }

  lemma EscapedReadsBack(s: string)
    ensures Unescape(Escaped(s)) == s && NoAngle(Escaped(s))
  {
    UnescapeUndoesEscape(s);
    EscapedHasNoAngle(s);
  }

  lemma UnescapeAllCons(value: string, rest: seq<string>)
    ensures UnescapeAll([value] + rest) == [Unescape(value)] + UnescapeAll(rest)
  {
    assert ([value] + rest)[1..] == rest;
  }

  lemma {:induction false} EscapedAllReadBack(args: seq<string>)
    ensures |EscapedAll(args)| == |args| && NoAngles(EscapedAll(args)) && UnescapeAll(EscapedAll(args)) == args
  {
    if args != [] {
      EscapedAllReadBack(args[1..]);
      EscapedReadsBack(args[0]);
      UnescapeAllCons(Escaped(args[0]), EscapedAll(args[1..]));
    }
  }

  function EscapedAll(args: seq<string>): seq<string> {
    if args == [] then [] else [Escaped(args[0])] + EscapedAll(args[1..])
  }

  lemma EscapedAllCons(arg: string, rest: seq<string>)
    ensures EscapedAll([arg] + rest) == [Escaped(arg)] + EscapedAll(rest)
  {
    assert ([arg] + rest)[1..] == rest;
  }

  /** The options need no escaping, so both command lines are escaped throughout. */
  lemma CommandLineIsEscaped(exe: string, option: string, last: string)
    requires NeedsNoEscape(option)
    ensures EscapedAll([exe, option, last]) == [Escaped(exe), option, Escaped(last)]
  {
    PlainIsItsOwnEscape(option);
    EscapedAllCons(exe, [option, last]);
    EscapedAllCons(option, [last]);
    EscapedAllCons(last, []);
    assert [exe] + [option, last] == [exe, option, last] && [option] + [last] == [option, last];
    assert [last] + [] == [last] && EscapedAll([]) == [];
  }

  lemma ServiceLineIsEscaped(exe: string, run: string, flag: string, config: string)
    requires NeedsNoEscape(run) && NeedsNoEscape(flag)
    ensures EscapedAll([exe, run, flag, config]) == [Escaped(exe), run, flag, Escaped(config)]
  {
    CommandLineIsEscaped(run, flag, config);
    PlainIsItsOwnEscape(run);
    EscapedAllCons(exe, [run, flag, config]);
    assert [exe] + [run, flag, config] == [exe, run, flag, config];
  }

  lemma MachineLineIsEscaped(exe: string, run: string, flag: string)
    requires NeedsNoEscape(run) && NeedsNoEscape(flag)
    ensures EscapedAll([exe, run, flag]) == [Escaped(exe), run, flag]
  {
    CommandLineIsEscaped(exe, run, flag);
    PlainIsItsOwnEscape(flag);
  }

  lemma ServiceArgsUnescape(spec: ServiceSpec)
    ensures NoAngles(ServiceArgs(spec))
    ensures UnescapeAll(ServiceArgs(spec)) == [spec.exe, RUN, CONFIG_FLAG, spec.config]
  {
    ServiceLineIsEscaped(spec.exe, RUN, CONFIG_FLAG, spec.config);
    EscapedAllReadBack([spec.exe, RUN, CONFIG_FLAG, spec.config]);
  }

  lemma MachineArgsUnescape(spec: MachineSpec)
    ensures NoAngles(MachineArgs(spec))
    ensures UnescapeAll(MachineArgs(spec)) == [spec.exe, RUN, ALL_FLAG]
  {
    MachineLineIsEscaped(spec.exe, RUN, ALL_FLAG);
    EscapedAllReadBack([spec.exe, RUN, ALL_FLAG]);
  }

  lemma PlistTarget(name: string, args: seq<string>, workDir: string, env: seq<(string, string)>, out: string,
                    err: string)
    requires NoAngle(name) && NoAngles(args)
    ensures ParseTarget(Render(Plist(name, args, workDir, env, out, err))) == TargetFromArgs(UnescapeAll(args))
  {
    assert "Label"[0] == 'L' && ARGUMENTS[0] == 'P';
    StartMisses(name, ARGUMENTS);
    TargetIsFound(Start(name), args, StringEntry(INDENT, DIRECTORY, workDir)
      + (EnvOpen() + (Entries(env) + (ClosePieces(INDENT, DICT_END) + Footer(out, err)))));
  }

  /** A registration plist names exactly the configuration it was rendered for. */
  lemma LaunchdTargetRoundTrip(spec: ServiceSpec)
    requires Absolute(spec.exe) && Absolute(spec.config)
    ensures ParseTarget(LaunchdText(spec)) == Some(Config(spec.config))
  {
    EscapedHasNoAngle(spec.name);
    ServiceArgsUnescape(spec);
    PlistTarget(Escaped(spec.name), ServiceArgs(spec), Escaped(spec.workDir), [(PATH, Escaped(spec.envPath))],
                Escaped(spec.out), Escaped(spec.err));
    TargetOfConfigArgs(spec.exe, spec.config);
  }

  lemma MachineLabelIsPlain()
    ensures NoAngle(MACHINE_LABEL)
  {
  }

  /** The machine plist reads back as supervising everything. */
  lemma LaunchdMachineTargetRoundTrip(spec: MachineSpec)
    requires Absolute(spec.exe)
    ensures ParseTarget(LaunchdMachineText(spec)) == Some(All)
  {
    MachineLabelIsPlain();
    MachineArgsUnescape(spec);
    PlistTarget(MACHINE_LABEL, MachineArgs(spec), Escaped(spec.workDir), MachineEnv(spec), Escaped(spec.out),
                Escaped(spec.err));
    TargetOfAllArgs(spec.exe);
  }

  lemma EntriesCons(key: string, value: string, rest: seq<(string, string)>)
    ensures Entries([(key, value)] + rest) == StringEntry(DEEPER, key, value) + Entries(rest)
  {
    assert ([(key, value)] + rest)[1..] == rest;
  }

  lemma PinnedPlist(name: string, args: seq<string>, workDir: string, path: string, home: string, out: string,
                    err: string)
    ensures Plist(name, args, workDir, [(PATH, path), (HOME, home)], out, err)
         == (Start(name) + Middle(args, workDir, path))
            + (StringEntry(DEEPER, HOME, home) + (ClosePieces(INDENT, DICT_END) + Footer(out, err)))
  {
    EntriesCons(PATH, path, [(HOME, home)]);
    EntriesCons(HOME, home, []);
    assert [(PATH, path)] + [(HOME, home)] == [(PATH, path), (HOME, home)];
    assert [(HOME, home)] + [] == [(HOME, home)] && Entries([]) == [];
    RegroupPieces(Start(name), ProgramArguments(args), StringEntry(INDENT, DIRECTORY, workDir), EnvOpen(),
                  StringEntry(DEEPER, PATH, path), StringEntry(DEEPER, HOME, home),
                  ClosePieces(INDENT, DICT_END) + Footer(out, err));
  }

  lemma RegroupPieces(a: seq<Piece>, b: seq<Piece>, c: seq<Piece>, d: seq<Piece>, e: seq<Piece>, f: seq<Piece>,
                      g: seq<Piece>)
    ensures a + (b + (c + (d + ((e + (f + [])) + g)))) == (a + (b + (c + (d + e)))) + (f + g)
  {
  }

  lemma UnpinnedPlist(name: string, args: seq<string>, workDir: string, path: string, out: string, err: string)
    ensures Plist(name, args, workDir, [(PATH, path)], out, err)
         == (Start(name) + Middle(args, workDir, path)) + (ClosePieces(INDENT, DICT_END) + Footer(out, err))
  {
    EntriesCons(PATH, path, []);
    assert [(PATH, path)] + [] == [(PATH, path)] && Entries([]) == [];
    RegroupUnpinned(Start(name), ProgramArguments(args), StringEntry(INDENT, DIRECTORY, workDir), EnvOpen(),
                    StringEntry(DEEPER, PATH, path), ClosePieces(INDENT, DICT_END) + Footer(out, err));
  }

  lemma RegroupUnpinned(a: seq<Piece>, b: seq<Piece>, c: seq<Piece>, d: seq<Piece>, e: seq<Piece>, g: seq<Piece>)
    ensures a + (b + (c + (d + ((e + []) + g)))) == (a + (b + (c + (d + e)))) + g
  {
  }

  lemma LeadMissesHome(name: string, args: seq<string>, workDir: string, path: string)
    requires NoAngle(name) && NoAngles(args) && NoAngle(workDir) && NoAngle(path)
    ensures Misses(Start(name) + Middle(args, workDir, path), HOME)
  {
    assert "Label"[0] == 'L' && HOME[0] == 'T';
    StartMisses(name, HOME);
    MiddleMissesHome(args, workDir, path);
    MissesConcat(Start(name), Middle(args, workDir, path), HOME);
  }

  lemma PinnedHomeRoundTrip(name: string, args: seq<string>, workDir: string, path: string, home: string, out: string,
                            err: string)
    requires NoAngle(name) && NoAngles(args) && NoAngle(workDir) && NoAngle(path)
    ensures ParseHome(Render(Plist(name, args, workDir, [(PATH, path), (HOME, Escaped(home))], out, err))) == Some(home)
  {
    LeadMissesHome(name, args, workDir, path);
    PinnedPlist(name, args, workDir, path, Escaped(home), out, err);
    GapsArePlain();
    assert NoAngle(HOME);
    FieldIsFound(Start(name) + Middle(args, workDir, path), DEEPER, HOME, home,
                 ClosePieces(INDENT, DICT_END) + Footer(out, err));
  }

  lemma UnpinnedHomeRoundTrip(name: string, args: seq<string>, workDir: string, path: string, out: string, err: string)
    requires NoAngle(name) && NoAngles(args) && NoAngle(workDir) && NoAngle(path) && NoAngle(out) && NoAngle(err)
    ensures ParseHome(Render(Plist(name, args, workDir, [(PATH, path)], out, err))) == None
  {
    var lead, rest := Start(name) + Middle(args, workDir, path), ClosePieces(INDENT, DICT_END) + Footer(out, err);
    LeadMissesHome(name, args, workDir, path);
    UnpinnedPlist(name, args, workDir, path, out, err);
    FixedTagsMiss(HOME);
    FooterMisses(out, err);
    MissesConcat(ClosePieces(INDENT, DICT_END), Footer(out, err), HOME);
    MissesConcat(lead, rest, HOME);
    NoHome(lead + rest);
  }

  /** The pinned home reads back as itself, and as nothing when none is pinned. */
  lemma LaunchdMachineHomeRoundTrip(spec: MachineSpec)
    ensures ParseHome(LaunchdMachineText(spec)) == spec.home
  {
    MachineLabelIsPlain();
    MachineArgsUnescape(spec);
    EscapedHasNoAngle(spec.envPath);
    EscapedHasNoAngle(spec.workDir);
    EscapedHasNoAngle(spec.out);
    EscapedHasNoAngle(spec.err);
    var args, dir, path := MachineArgs(spec), Escaped(spec.workDir), Escaped(spec.envPath);
    if spec.home.Some? {
      PinnedHomeRoundTrip(MACHINE_LABEL, args, dir, path, spec.home.value, Escaped(spec.out), Escaped(spec.err));
    } else {
      UnpinnedHomeRoundTrip(MACHINE_LABEL, args, dir, path, Escaped(spec.out), Escaped(spec.err));
    }
  }

  /** A registration plist pins no home. */
  lemma LaunchdServiceHasNoHome(spec: ServiceSpec)
    ensures ParseHome(LaunchdText(spec)) == None
  {
    ServiceArgsUnescape(spec);
    EscapedHasNoAngle(spec.name);
    EscapedHasNoAngle(spec.envPath);
    EscapedHasNoAngle(spec.workDir);
    EscapedHasNoAngle(spec.out);
    EscapedHasNoAngle(spec.err);
    UnpinnedHomeRoundTrip(Escaped(spec.name), ServiceArgs(spec), Escaped(spec.workDir), Escaped(spec.envPath),
                          Escaped(spec.out), Escaped(spec.err));
  }
}
