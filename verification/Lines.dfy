/**
 A stream cut into lines, and each line rewritten on its own. The redacting log writer
 (crates/shared/src/startup.rs) does this to bytes; what it means for the text is the same on characters.
 */
module Lines {
  import opened Text

  /** A stream cut after every newline: the finished lines, and the unfinished one at the end. */
  datatype Cut<T> = Cut(lines: seq<seq<T>>, tail: seq<T>)

  function CutUp<T(==)>(s: seq<T>, nl: T): Cut<T> {
    if s == [] then Cut([], []) else CutNext(CutUp(s[..|s| - 1], nl), s[|s| - 1], nl)
  }

  function CutNext<T(==)>(before: Cut<T>, b: T, nl: T): Cut<T> {
    if b == nl then Cut(before.lines + [before.tail + [b]], []) else Cut(before.lines, before.tail + [b])
  }

  lemma CutByte<T>(s: seq<T>, b: T, nl: T)
    ensures CutUp(s + [b], nl) == CutNext(CutUp(s, nl), b, nl)
  {
    assert (s + [b])[..|s|] == s;
  }

  function Concat<T>(parts: seq<seq<T>>): seq<T> {
    if parts == [] then [] else Concat(parts[..|parts| - 1]) + parts[|parts| - 1]
  }

  /** Each line rewritten on its own. */
  function EachLine<T, U>(lines: seq<seq<T>>, f: seq<T> -> seq<U>): seq<U> {
    if lines == [] then [] else EachLine(lines[..|lines| - 1], f) + f(lines[|lines| - 1])
  }

  /** What a stream looks like on the other side: each line rewritten, then the unfinished tail. */
  function ByLine<T(==), U>(s: seq<T>, nl: T, f: seq<T> -> seq<U>): seq<U> {
    EachLine(CutUp(s, nl).lines, f) + if CutUp(s, nl).tail == [] then [] else f(CutUp(s, nl).tail)
  }

  predicate IsLine<T(==)>(line: seq<T>, nl: T) {
    line != [] && line[|line| - 1] == nl && nl !in line[..|line| - 1]
  }

  lemma ConcatPush<T>(parts: seq<seq<T>>, last: seq<T>)
    ensures Concat(parts + [last]) == Concat(parts) + last
  {
    assert (parts + [last])[..|parts|] == parts;
  }

  /** Every finished line ends in its only newline; the tail has none. */
  lemma {:induction false} CutShape<T>(s: seq<T>, nl: T)
    ensures forall line :: line in CutUp(s, nl).lines ==> IsLine(line, nl)
    ensures nl !in CutUp(s, nl).tail
  {
    if s != [] {
      var before, b := CutUp(s[..|s| - 1], nl), s[|s| - 1];
      CutShape(s[..|s| - 1], nl);
      assert (before.tail + [b])[..|before.tail|] == before.tail;
    }
  }

  function Whole<T>(cut: Cut<T>): seq<T> {
    Concat(cut.lines) + cut.tail
  }

  lemma WholeNext<T>(before: Cut<T>, b: T, nl: T)
    ensures Whole(CutNext(before, b, nl)) == Whole(before) + [b]
  {
    ConcatPush(before.lines, before.tail + [b]);
    ConcatAssoc(Concat(before.lines), before.tail, [b]);
  }

  /** The lines and the tail are the stream. */
  lemma {:induction false} CutIsTheStream<T>(s: seq<T>, nl: T)
    ensures Whole(CutUp(s, nl)) == s
  {
    if s != [] {
      var front, b := s[..|s| - 1], s[|s| - 1];
      assert s == front + [b];
      CutIsTheStream(front, nl);
      CutByte(front, b, nl);
      WholeNext(CutUp(front, nl), b, nl);
    }
  }

  lemma {:induction false} CutWithoutNewline<T>(s: seq<T>, nl: T)
    requires nl !in s
    ensures CutUp(s, nl) == Cut([], s)
  {
    if s != [] {
      CutWithoutNewline(s[..|s| - 1], nl);
      assert s == s[..|s| - 1] + [s[|s| - 1]];
    }
  }

  lemma CutOneLine<T>(line: seq<T>, nl: T)
    requires IsLine(line, nl)
    ensures CutUp(line, nl) == Cut([line], [])
  {
    CutWithoutNewline(line[..|line| - 1], nl);
    assert line == line[..|line| - 1] + [nl];
    assert [] + [line] == [line];
  }

  /** Appending continues with what was left unfinished. */
  lemma {:induction false} CutAppend<T>(a: seq<T>, b: seq<T>, nl: T)
    ensures CutUp(a + b, nl)
         == Cut(CutUp(a, nl).lines + CutUp(CutUp(a, nl).tail + b, nl).lines, CutUp(CutUp(a, nl).tail + b, nl).tail)
    decreases |b|
  {
    var tail := CutUp(a, nl).tail;
    if b == [] {
      assert a + b == a && tail + b == tail;
      CutShape(a, nl);
      CutWithoutNewline(tail, nl);
    } else {
      var front, x := b[..|b| - 1], b[|b| - 1];
      CutAppend(a, front, nl);
      assert a + b == (a + front) + [x] && tail + b == (tail + front) + [x];
      CutByte(a + front, x, nl);
      CutByte(tail + front, x, nl);
    }
  }

  /** A stream that starts with a line. */
  lemma CutLine<T>(line: seq<T>, rest: seq<T>, nl: T)
    requires IsLine(line, nl)
    ensures CutUp(line + rest, nl) == Cut([line] + CutUp(rest, nl).lines, CutUp(rest, nl).tail)
  {
    CutOneLine(line, nl);
    CutAppend(line, rest, nl);
    assert [] + rest == rest;
  }

  lemma {:induction false} EachLineAppend<T, U>(a: seq<seq<T>>, b: seq<seq<T>>, f: seq<T> -> seq<U>)
    ensures EachLine(a + b, f) == EachLine(a, f) + EachLine(b, f)
    decreases |b|
  {
    if b == [] {
      assert a + b == a;
    } else {
      assert (a + b)[..|a + b| - 1] == a + b[..|b| - 1];
      EachLineAppend(a, b[..|b| - 1], f);
    }
  }

  lemma EachLineFirst<T, U>(line: seq<T>, rest: seq<seq<T>>, f: seq<T> -> seq<U>)
    ensures EachLine([line] + rest, f) == f(line) + EachLine(rest, f)
  {
    assert [line][..0] == [];
    EachLineAppend([line], rest, f);
  }

  lemma ByLineFirst<T, U>(line: seq<T>, rest: seq<T>, nl: T, f: seq<T> -> seq<U>)
    requires IsLine(line, nl)
    ensures ByLine(line + rest, nl, f) == f(line) + ByLine(rest, nl, f)
  {
    CutLine(line, rest, nl);
    EachLineFirst(line, CutUp(rest, nl).lines, f);
  }

  lemma ByLineUnfinished<T, U>(s: seq<T>, nl: T, f: seq<T> -> seq<U>)
    requires nl !in s
    ensures ByLine(s, nl, f) == if s == [] then [] else f(s)
  {
    CutWithoutNewline(s, nl);
  }

  predicate FirstAt<T(==)>(s: seq<T>, x: T, pos: nat) {
    pos <= |s| && (pos < |s| ==> s[pos] == x) && x !in s[..pos]
  }

  method Position<T(==)>(s: seq<T>, x: T) returns (pos: nat)
    ensures FirstAt(s, x, pos)
  {
    pos := 0;
    while pos < |s| && s[pos] != x
      invariant pos <= |s| && x !in s[..pos]
    {
      pos := pos + 1;
    }
  }

  /** A stream with a newline in it starts with a line. */
  lemma {:induction false} TakeLine<T>(s: seq<T>, nl: T) returns (line: seq<T>, rest: seq<T>)
    requires nl in s
    ensures s == line + rest && IsLine(line, nl)
    decreases |s|
  {
    if s[0] == nl {
      line, rest := s[..1], s[1..];
    } else {
      line, rest := TakeLine(s[1..], nl);
      line := [s[0]] + line;
    }
  }

  /** The first line of a stream that has one. */
  lemma FirstLine<T>(s: seq<T>, nl: T, pos: nat)
    requires FirstAt(s, nl, pos) && pos < |s|
    ensures IsLine(s[..pos + 1], nl) && s == s[..pos + 1] + s[pos + 1..]
  {
    assert s[..pos + 1][..pos] == s[..pos];
  }
}
