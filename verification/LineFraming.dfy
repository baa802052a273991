/**
 * How the client of the agent process cuts its output into lines: `CodexAppClient.read` in canvas-
 * agent/src/agents.ts.
 */
module LineFraming {
  import opened Text

  datatype Framed = Framed(lines: seq<string>, rest: string)

  function LineEnd(text: string): (i: nat)
    ensures i <= |text| && (i < |text| ==> text[i] == '\n') && forall j :: 0 <= j < i ==> text[j] != '\n'
  {
    if text == "" || text[0] == '\n' then 0 else 1 + LineEnd(text[1..])
  }

  function StripCR(line: string): string {
    if line != "" && line[|line| - 1] == '\r' then line[..|line| - 1] else line
  }

  /** Cut at every line feed, with the carriage return in front of it; the last piece stays. */
  function Split(text: string): Framed
    decreases |text|
  {
    var i := LineEnd(text);
    if i == |text| then Framed([], text)
    else
      var after := Split(text[i + 1..]);
      Framed([StripCR(text[..i])] + after.lines, after.rest)
  }

  /** The lines that are handed over. */
  function NonEmpty(lines: seq<string>): seq<string> {
    if lines == [] then []
    else if lines[0] == "" then NonEmpty(lines[1..])
    else [lines[0]] + NonEmpty(lines[1..])
  }

  lemma LineEndStable(front: string, back: string)
    requires LineEnd(front) < |front|
    ensures LineEnd(front + back) == LineEnd(front)
  {
    var i, j := LineEnd(front), LineEnd(front + back);
    assert (front + back)[i] == '\n';
    if j < i {
      assert (front + back)[j] == front[j];
    }
  }

  lemma CutFront(front: string, back: string, i: nat)
    requires i < |front|
    ensures (front + back)[..i] == front[..i] && (front + back)[i + 1..] == front[i + 1..] + back
  {
  }

  lemma LinesJoin(a: seq<string>, b: seq<string>, c: seq<string>)
    ensures a + b + c == a + (b + c) && [] + c == c
  {
  }

  /** Splitting a longer text is splitting its front and going on with what that leaves. */
  lemma {:induction false} SplitGrows(front: string, back: string)
    ensures var a, b := Split(front), Split(Split(front).rest + back);
            Split(front + back) == Framed(a.lines + b.lines, b.rest)
    decreases |front|
  {
    hide StripCR, LineEnd;
    var i := LineEnd(front);
    if i < |front| {
      LineEndStable(front, back);
      CutFront(front, back, i);
      SplitGrows(front[i + 1..], back);
      var after := Split(front[i + 1..]);
      LinesJoin([StripCR(front[..i])], after.lines, Split(after.rest + back).lines);
    } else {
      LinesJoin([], [], Split(front + back).lines);
    }
  }

  lemma {:induction false} NonEmptyGrows(a: seq<string>, b: seq<string>)
    ensures NonEmpty(a + b) == NonEmpty(a) + NonEmpty(b)
  {
    if a == [] {
      assert a + b == b;
    } else {
      assert (a + b)[1..] == a[1..] + b;
      NonEmptyGrows(a[1..], b);
    }
  }

  /** The lines handed over for a sequence of chunks, from a given buffer on. */
  function Handed(buffer: string, chunks: seq<string>): seq<string>
    decreases |chunks|
  {
    if chunks == [] then []
    else
      var framed := Split(buffer + chunks[0]);
      NonEmpty(framed.lines) + Handed(framed.rest, chunks[1..])
  }

  lemma {:induction false} HandedIs(buffer: string, chunks: seq<string>)
    requires Split(buffer) == Framed([], buffer)
    ensures Handed(buffer, chunks) == NonEmpty(Split(buffer + Concat(chunks)).lines)
    decreases |chunks|
  {
    if chunks == [] {
      EmptySides(buffer);
    } else {
      var first, more := chunks[0], Concat(chunks[1..]);
      var framed := Split(buffer + first);
      SplitGrows(buffer + first, more);
      Assoc(buffer, first, more);
      RestHasNoLine(buffer + first);
      HandedIs(framed.rest, chunks[1..]);
      NonEmptyGrows(framed.lines, Split(framed.rest + more).lines);
    }
  }

  lemma {:induction false} RestHasNoLine(text: string)
    ensures Split(Split(text).rest) == Framed([], Split(text).rest)
    decreases |text|
  {
    var i := LineEnd(text);
    if i < |text| {
      RestHasNoLine(text[i + 1..]);
    }
  }

  /** The same lines are handed over however the text is cut. */
  lemma FramingIgnoresChunks(chunks: seq<string>)
    ensures Handed("", chunks) == NonEmpty(Split(Concat(chunks)).lines)
  {
    HandedIs("", chunks);
    EmptySides(Concat(chunks));
  }

  /** A line as a peer writes it: not empty, no line feed in it, no carriage return at its end. */
  predicate Sendable(line: string) {
    line != "" && '\n' !in line && line[|line| - 1] != '\r'
  }

  /** Lines as they are sent, each closed by a line feed, `crlf` telling which by a carriage return too. */
  function Sent(lines: seq<string>, crlf: seq<bool>): string
    requires |crlf| == |lines|
  {
    if lines == [] then "" else lines[0] + (if crlf[0] then "\r\n" else "\n") + Sent(lines[1..], crlf[1..])
  }

  /** What was sent is what is handed over, through any chunks and with either line ending. */
  lemma FramingRoundTrip(lines: seq<string>, crlf: seq<bool>, chunks: seq<string>)
    requires |crlf| == |lines| && (forall k :: 0 <= k < |lines| ==> Sendable(lines[k]))
    requires Concat(chunks) == Sent(lines, crlf)
    ensures Handed("", chunks) == lines
  {
    FramingIgnoresChunks(chunks);
    SplitOfSent(lines, crlf);
    NothingDropped(lines);
  }

  lemma {:induction false} NothingDropped(lines: seq<string>)
    requires forall k :: 0 <= k < |lines| ==> Sendable(lines[k])
    ensures NonEmpty(lines) == lines
  {
    if lines != [] {
      NothingDropped(lines[1..]);
    }
  }

  lemma SplitOfNothing()
    ensures Split("") == Framed([], "")
  {
  }

  lemma {:induction false} SplitOfSent(lines: seq<string>, crlf: seq<bool>)
    requires |crlf| == |lines| && forall k :: 0 <= k < |lines| ==> Sendable(lines[k])
    ensures Split(Sent(lines, crlf)) == Framed(lines, "")
  {
    hide Split, Sendable;
    if lines == [] {
      SplitOfNothing();
    } else {
      var ending := if crlf[0] then "\r\n" else "\n";
      var more := Sent(lines[1..], crlf[1..]);
      SplitOfSent(lines[1..], crlf[1..]);
      OneLine(lines[0], crlf[0]);
      SplitGrows(lines[0] + ending, more);
      EmptySides(more);
    }
  }

  lemma OneLine(line: string, crlf: bool)
    requires Sendable(line)
    ensures Split(line + (if crlf then "\r\n" else "\n")) == Framed([line], "")
  {
    var body := if crlf then line + "\r" else line;
    var text := line + if crlf then "\r\n" else "\n";
    assert text == body + "\n";
    assert LineEnd(text) == |body| by {
      assert text[|body|] == '\n';
      assert forall j :: 0 <= j < |body| ==> text[j] == body[j];
    }
    assert text[..|body|] == body && text[|body| + 1..] == "";
    if crlf {
      assert body[..|body| - 1] == line;
    }
    assert Split("") == Framed([], "");
  }
}
