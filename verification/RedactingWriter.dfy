/**
 The redacting log writer (crates/shared/src/startup.rs): bytes are buffered until a newline
 completes a line, and every line passes through the redactor on its own.

 `redact` stands for decoding a line, redacting it and encoding the result; it is applied to
 whole lines only, so nothing is assumed about it.
 */
module RedactingWriter {
  import opened Text
  import opened Lines

  type byte = n: nat | n < 256
  type Bytes = seq<byte>

  const NEWLINE: byte := 10

  // --------------------------------------------------------------------- the writer

  class Writer {
    const redact: Bytes -> Bytes
    var buffer: Bytes
    var inner: Bytes

    constructor (redact: Bytes -> Bytes)
      ensures this.redact == redact && buffer == [] && inner == []
    {
      this.redact, buffer, inner := redact, [], [];
    }

    method DrainCompleteLines()
      modifies this
      ensures inner == old(inner) + EachLine(CutUp(old(buffer), NEWLINE).lines, redact)
      ensures buffer == CutUp(old(buffer), NEWLINE).tail
    {
      var pos: nat := Position(buffer, NEWLINE);
      while pos < |buffer|
        invariant FirstAt(buffer, NEWLINE, pos)
        invariant inner + EachLine(CutUp(buffer, NEWLINE).lines, redact)
            == old(inner) + EachLine(CutUp(old(buffer), NEWLINE).lines, redact)
        invariant CutUp(buffer, NEWLINE).tail == CutUp(old(buffer), NEWLINE).tail
        decreases |buffer|
      {
        var line, rest := buffer[..pos + 1], buffer[pos + 1..];
        DrainOne(buffer, pos, redact);
        ConcatAssoc(inner, redact(line), EachLine(CutUp(rest, NEWLINE).lines, redact));
        buffer := rest;
        inner := inner + redact(line);
        pos := Position(buffer, NEWLINE);
      }
      CutWithoutNewline(buffer, NEWLINE);
    }

    method Write(buf: Bytes) returns (written: nat)
      modifies this
      ensures written == |buf|
      ensures inner == old(inner) + EachLine(CutUp(old(buffer) + buf, NEWLINE).lines, redact)
      ensures buffer == CutUp(old(buffer) + buf, NEWLINE).tail
    {
      buffer := buffer + buf;
      DrainCompleteLines();
      written := |buf|;
    }

    method Flush()
      modifies this
      ensures inner == old(inner) + ByLine(old(buffer), NEWLINE, redact)
      ensures buffer == []
    {
      DrainCompleteLines();
      if buffer != [] {
        var pending := buffer;
        buffer := [];
        inner := inner + redact(pending);
      }
    }
  }

  /** Taking the first line off the buffer. */
  lemma DrainOne(s: Bytes, pos: nat, redact: Bytes -> Bytes)
    requires pos < |s| && FirstAt(s, NEWLINE, pos)
    ensures EachLine(CutUp(s, NEWLINE).lines, redact)
         == redact(s[..pos + 1]) + EachLine(CutUp(s[pos + 1..], NEWLINE).lines, redact)
    ensures CutUp(s, NEWLINE).tail == CutUp(s[pos + 1..], NEWLINE).tail
  {
    var line, rest := s[..pos + 1], s[pos + 1..];
    FirstLine(s, NEWLINE, pos);
    CutLine(line, rest, NEWLINE);
    EachLineFirst(line, CutUp(rest, NEWLINE).lines, redact);
  }

  // ------------------------------------------------------------- chunk independence

  lemma ConcatStep(chunks: seq<Bytes>, i: nat)
    requires i < |chunks|
    ensures Concat(chunks[..i + 1]) == Concat(chunks[..i]) + chunks[i]
  {
    assert chunks[..i + 1][..i] == chunks[..i];
  }

  /** The writer's fields after any number of writes say what was written in all, not how. */
  lemma WriteContinues(s: Bytes, chunk: Bytes, redact: Bytes -> Bytes)
    ensures var cut, next := CutUp(s, NEWLINE), CutUp(CutUp(s, NEWLINE).tail + chunk, NEWLINE);
            && CutUp(s + chunk, NEWLINE).tail == next.tail
            && EachLine(CutUp(s + chunk, NEWLINE).lines, redact)
               == EachLine(cut.lines, redact) + EachLine(next.lines, redact)
  {
    CutAppend(s, chunk, NEWLINE);
    EachLineAppend(CutUp(s, NEWLINE).lines, CutUp(CutUp(s, NEWLINE).tail + chunk, NEWLINE).lines, redact);
  }

  lemma FlushFinishes(s: Bytes, redact: Bytes -> Bytes)
    ensures EachLine(CutUp(s, NEWLINE).lines, redact) + ByLine(CutUp(s, NEWLINE).tail, NEWLINE, redact)
         == ByLine(s, NEWLINE, redact)
  {
    CutShape(s, NEWLINE);
    CutWithoutNewline(CutUp(s, NEWLINE).tail, NEWLINE);
  }

  /**
   However the bytes are cut into writes, after one flush the output is each line of the whole
   stream redacted on its own, then the unfinished tail.
   */
  method WriteAllAndFlush(chunks: seq<Bytes>, redact: Bytes -> Bytes) returns (output: Bytes)
    ensures output == ByLine(Concat(chunks), NEWLINE, redact)
  {
    var w := new Writer(redact);
    var i := 0;
    while i < |chunks|
      invariant 0 <= i <= |chunks|
      invariant w.redact == redact && fresh(w)
      invariant w.buffer == CutUp(Concat(chunks[..i]), NEWLINE).tail
      invariant w.inner == EachLine(CutUp(Concat(chunks[..i]), NEWLINE).lines, redact)
    {
      ConcatStep(chunks, i);
      WriteContinues(Concat(chunks[..i]), chunks[i], redact);
      var _ := w.Write(chunks[i]);
      i := i + 1;
    }
    assert chunks[..i] == chunks;
    FlushFinishes(Concat(chunks), redact);
    w.Flush();
    output := w.inner;
  }
}
