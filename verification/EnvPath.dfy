/** The `PATH` baked into a launchd agent (crates/config/src/service_unit.rs). */
module EnvPath {
  import opened Text

  const COLON: set<char> := {':'}
  const COLON_TEXT: string := ":"

  /** `GUARANTEED_PATH_DIRS`. */
  const GUARANTEED: seq<string> :=
    ["/opt/homebrew/bin", "/opt/homebrew/sbin", "/usr/local/bin", "/usr/bin", "/bin", "/usr/sbin", "/sbin"]

  function Kept(out: seq<string>, entry: string): seq<string> {
    if entry != [] && entry !in out then out + [entry] else out
  }

  /** `out` after the loop has seen `entries`, oldest first. */
  function Collected(entries: seq<string>): seq<string> {
    if entries == [] then [] else Kept(Collected(entries[..|entries| - 1]), entries[|entries| - 1])
  }

  function Entries(current: Option<string>, dirs: seq<string>): seq<string> {
    Split(if current.Some? then current.value else [], COLON) + dirs
  }

  function EnvPathOf(current: Option<string>, dirs: seq<string>): string {
    Join(Collected(Entries(current, dirs)), COLON_TEXT)
  }

  /** `launchd_env_path`. */
  method LaunchdEnvPath(current: Option<string>) returns (path: string)
    ensures path == EnvPathOf(current, GUARANTEED)
  {
    var entries := Entries(current, GUARANTEED);
    var out: seq<string> := [];
    var i := 0;
    while i < |entries|
      invariant 0 <= i <= |entries|
      invariant out == Collected(entries[..i])
    {
      assert entries[..i + 1][..i] == entries[..i];
      if entries[i] != [] && entries[i] !in out {
        out := out + [entries[i]];
      }
      i := i + 1;
    }
    assert entries[..i] == entries;
    path := Join(out, COLON_TEXT);
  }

  // ------------------------------------------------------------------- what is kept

  /** `out` keeps the first occurrence of each nonempty entry, in order, and nothing else. */
  lemma {:induction false} CollectedIsFirstOccurrences(entries: seq<string>)
    ensures NoDup(Collected(entries))
    ensures forall e :: e in Collected(entries) <==> e in entries && e != []
    ensures forall k :: 0 <= k < |entries| && entries[k] != [] && entries[k] !in entries[..k]
                     ==> Collected(entries[..k + 1]) == Collected(entries[..k]) + [entries[k]]
  {
    if entries != [] {
      var n := |entries| - 1;
      CollectedIsFirstOccurrences(entries[..n]);
      assert entries == entries[..n] + [entries[n]];
    }
    forall k | 0 <= k < |entries| && entries[k] != [] && entries[k] !in entries[..k]
      ensures Collected(entries[..k + 1]) == Collected(entries[..k]) + [entries[k]]
    {
      assert entries[..k + 1][..k] == entries[..k];
      CollectedHoldsOnlyEntries(entries[..k]);
    }
  }

  lemma {:induction false} CollectedHoldsOnlyEntries(entries: seq<string>)
    ensures forall e :: e in Collected(entries) ==> e in entries
  {
    if entries != [] {
      CollectedHoldsOnlyEntries(entries[..|entries| - 1]);
    }
  }

  /** Entries already there add nothing. */
  lemma {:induction false} CollectedAbsorbs(a: seq<string>, b: seq<string>)
    requires forall k :: 0 <= k < |b| ==> b[k] in Collected(a) || b[k] == []
    ensures Collected(a + b) == Collected(a)
    decreases |b|
  {
    if b == [] {
      assert a + b == a;
    } else {
      var n := |b| - 1;
      assert (a + b)[..|a + b| - 1] == a + b[..n];
      CollectedAbsorbs(a, b[..n]);
    }
  }

  lemma {:induction false} CollectedKeepsDistinct(out: seq<string>)
    requires NoDup(out) && forall k :: 0 <= k < |out| ==> out[k] != []
    ensures Collected(out) == out
  {
    if out != [] {
      var n := |out| - 1;
      CollectedKeepsDistinct(out[..n]);
      assert out == out[..n] + [out[n]];
      assert out[n] !in out[..n];
    }
  }

  // ------------------------------------------------------------ splitting and joining

  predicate ColonFree(s: string) {
    forall i :: 0 <= i < |s| ==> s[i] != ':'
  }

  predicate AllColonFree(pieces: seq<string>) {
    forall i :: 0 <= i < |pieces| ==> ColonFree(pieces[i])
  }

  lemma {:induction false} SplitIsColonFree(s: string)
    ensures AllColonFree(Split(s, COLON))
  {
    if s != [] {
      SplitIsColonFree(s[1..]);
    }
  }

  lemma {:induction false} SplitUndoesJoin(pieces: seq<string>)
    requires pieces != [] && AllColonFree(pieces)
    ensures Split(Join(pieces, COLON_TEXT), COLON) == pieces
    decreases |pieces|
  {
    if |pieces| == 1 {
      SplitWhole(pieces[0], COLON);
    } else {
      var rest := Join(pieces[1..], COLON_TEXT);
      SplitUndoesJoin(pieces[1..]);
      ConcatAssoc(pieces[0], COLON_TEXT, rest);
      SplitFirst(pieces[0], COLON_TEXT, rest, COLON);
      assert pieces == [pieces[0]] + pieces[1..];
    }
  }

  // -------------------------------------------------------------------- the two laws

  predicate Directories(dirs: seq<string>) {
    dirs != [] && AllColonFree(dirs) && forall k :: 0 <= k < |dirs| ==> dirs[k] != []
  }

  /** The kept entries survive being joined and split again. */
  lemma EntriesReadBack(current: Option<string>, dirs: seq<string>)
    requires Directories(dirs)
    ensures var out := Collected(Entries(current, dirs));
            Split(Join(out, COLON_TEXT), COLON) == out && forall k :: 0 <= k < |dirs| ==> dirs[k] in out
  {
    var text := if current.Some? then current.value else [];
    var entries := Entries(current, dirs);
    var out := Collected(entries);
    CollectedIsFirstOccurrences(entries);
    SplitIsColonFree(text);
    forall k | 0 <= k < |dirs| ensures dirs[k] in out {
      assert entries[|Split(text, COLON)| + k] == dirs[k];
    }
    assert dirs[0] in out;
    forall i | 0 <= i < |out| ensures ColonFree(out[i]) {
      assert out[i] in out;
    }
    SplitUndoesJoin(out);
  }

  lemma {:induction false} CollectedGrows(a: seq<string>, b: seq<string>)
    ensures Collected(a) <= Collected(a + b)
    decreases |b|
  {
    if b == [] {
      assert a + b == a;
    } else {
      var n := |b| - 1;
      assert (a + b)[..|a + b| - 1] == a + b[..n];
      CollectedGrows(a, b[..n]);
    }
  }

  /** The installing shell's own entries come first, each once, in their order; the guaranteed directories fill
      in what is missing. */
  lemma ShellEntriesComeFirst(current: string)
    ensures Collected(Split(current, {':'})) <= Split(EnvPathOf(Some(current), GUARANTEED), {':'})
    ensures forall e :: e in Split(EnvPathOf(Some(current), GUARANTEED), {':'})
              <==> e in GUARANTEED || (e in Split(current, {':'}) && e != [])
  {
    assert forall k :: 0 <= k < |GUARANTEED| ==> ColonFree(GUARANTEED[k]);
    EntriesReadBack(Some(current), GUARANTEED);
    CollectedGrows(Split(current, COLON), GUARANTEED);
    CollectedIsFirstOccurrences(Entries(Some(current), GUARANTEED));
  }

  /** Applying the function to its own output changes nothing. */
  lemma EnvPathIsIdempotent(current: Option<string>, dirs: seq<string>)
    requires Directories(dirs)
    ensures EnvPathOf(Some(EnvPathOf(current, dirs)), dirs) == EnvPathOf(current, dirs)
  {
    var entries := Entries(current, dirs);
    var out := Collected(entries);
    EntriesReadBack(current, dirs);
    CollectedIsFirstOccurrences(entries);
    forall k | 0 <= k < |out| ensures out[k] != [] {
      assert out[k] in out;
    }
    CollectedKeepsDistinct(out);
    CollectedAbsorbs(out, dirs);
  }

  /** Applied to its own output, `launchd_env_path` is a no-op; the guaranteed directories are always there. */
  lemma LaunchdEnvPathIsIdempotent(current: Option<string>)
    ensures EnvPathOf(Some(EnvPathOf(current, GUARANTEED)), GUARANTEED) == EnvPathOf(current, GUARANTEED)
    ensures forall k :: 0 <= k < |GUARANTEED| ==> GUARANTEED[k] in Split(EnvPathOf(current, GUARANTEED), COLON)
  {
    assert forall k :: 0 <= k < |GUARANTEED| ==> ColonFree(GUARANTEED[k]);
    EnvPathIsIdempotent(current, GUARANTEED);
    EntriesReadBack(current, GUARANTEED);
  }
}
