/**
 * What makes an event stream complete, told from its blocks alone and without the parser: stream_proxy.go,
 * `eventStreamIntegrity`.
 */
module EventVerdict {
  import opened EventStream
  import opened Text

  // ---------------------------------------------------------------- what a block says

  /** The values of the data lines, in order: what follows `data:` and at most one space. */
  function DataValues(lines: seq<string>): seq<string> {
    if lines == [] then []
    else
      var line := lines[0];
      (if "data: " <= line then [line[6..]] else if "data:" <= line then [line[5..]] else []) + DataValues(lines[1..])
  }

  /** The values with a line feed between any two. */
  function Spread(values: seq<string>): string {
    if values == [] then ""
    else if |values| == 1 then values[0]
    else Spread(values[..|values| - 1]) + "\n" + values[|values| - 1]
  }

  function Payload(lib: Library, block: string): string {
    lib.trim(Spread(DataValues(Lines(block))))
  }

  predicate HasData(lib: Library, block: string) {
    DataValues(Lines(block)) != [] && Payload(lib, block) != ""
  }

  /** The block names the event `name`: its last event line does, or it has none and the name is empty. */
  ghost predicate Named(lib: Library, block: string, name: string) {
    var lines := Lines(block);
    (exists k :: 0 <= k < |lines| && NamedBy(lib, lines, k, name))
    || (name == "" && forall k :: 0 <= k < |lines| ==> !("event:" <= lines[k]))
  }

  ghost predicate NamedBy(lib: Library, lines: seq<string>, k: nat, name: string)
    requires k < |lines|
  {
    "event:" <= lines[k] && name == lib.trim(lines[k][6..]) && forall j :: k < j < |lines| ==> !("event:" <= lines[j])
  }

  /** Data that is neither the closing mark nor a JSON event free of errors. */
  predicate Fails(lib: Library, block: string) {
    && HasData(lib, block) && Payload(lib, block) != "[DONE]"
    && (lib.decode(Payload(lib, block)) == InvalidJson || lib.decode(Payload(lib, block)) == UpstreamError)
  }

  /** The closing mark, a terminal payload, or one of the four closing names. */
  ghost predicate Closes(lib: Library, block: string) {
    || (HasData(lib, block) && Payload(lib, block) == "[DONE]")
    || (HasData(lib, block) && lib.decode(Payload(lib, block)) == TerminalEvent)
    || (exists name :: Named(lib, block, name) && ClosingName(lib, name))
    || (HasData(lib, block) && exists name :: Named(lib, block, name) && lib.equalFold(name, "done"))
  }

  predicate ClosingName(lib: Library, name: string) {
    lib.lower(lib.trim(name)) in {"done", "message_stop", "response.completed", "response.incomplete"}
  }

  // ---------------------------------------------------------------- the parser's reading of a block

  lemma {:induction false} DataLinesAreValues(lines: seq<string>)
    ensures DataLines(lines) == DataValues(lines)
    decreases |lines|
  {
    if lines != [] {
      DataLinesAreValues(lines[1..]);
      DataLinesFront(lines);
      assert lines[0] in lines;
    }
  }

  lemma {:induction false} DataLinesFront(lines: seq<string>)
    requires lines != []
    ensures DataLines(lines) == DataLines([lines[0]]) + DataLines(lines[1..])
    ensures DataLines([lines[0]]) == DataValues([lines[0]])
    decreases |lines|
  {
    assert [lines[0]][..0] == [] && [lines[0]][1..] == [];
    if |lines| == 1 {
      assert lines == [lines[0]];
    } else {
      var front := lines[..|lines| - 1];
      DataLinesFront(front);
      assert lines[1..][..|lines| - 2] == front[1..];
    }
  }

  lemma {:induction false} JoinIsSpread(parts: seq<string>)
    ensures Join(parts) == Spread(parts)
    decreases |parts|
  {
    if |parts| > 1 {
      JoinIsSpread(parts[..|parts| - 1]);
      JoinBack(parts);
    }
  }

  lemma {:induction false} JoinBack(parts: seq<string>)
    requires |parts| > 1
    ensures Join(parts) == Join(parts[..|parts| - 1]) + "\n" + parts[|parts| - 1]
    decreases |parts|
  {
    var front, last := parts[..|parts| - 1], parts[|parts| - 1];
    if |parts| == 2 {
      assert parts[1..] == [last] && front == [parts[0]];
    } else {
      JoinBack(parts[1..]);
      assert parts[1..][..|parts| - 2] == front[1..];
      assert Join(front) == parts[0] + "\n" + Join(front[1..]);
      Assoc(parts[0] + "\n", Join(front[1..]), "\n");
      Assoc(parts[0] + "\n", Join(front[1..]) + "\n", last);
    }
  }

  lemma {:induction false} NameOfLines(lib: Library, lines: seq<string>, name: string)
    ensures name == EventName(lib, lines) <==>
              (exists k :: 0 <= k < |lines| && NamedBy(lib, lines, k, name))
              || (name == "" && forall k :: 0 <= k < |lines| ==> !("event:" <= lines[k]))
    decreases |lines|
  {
    if lines != [] {
      var last := |lines| - 1;
      var front := lines[..last];
      NameOfLines(lib, front, name);
      if "event:" <= lines[last] {
        assert NamedBy(lib, lines, last, EventName(lib, lines));
      } else {
        forall k | 0 <= k < last ensures NamedBy(lib, lines, k, name) <==> NamedBy(lib, front, k, name) {
          assert forall j :: k < j < last ==> front[j] == lines[j];
        }
        assert forall k :: 0 <= k < last ==> front[k] == lines[k];
      }
    }
  }

  lemma NamedIsEventName(lib: Library, block: string)
    ensures forall name :: Named(lib, block, name) <==> name == EventName(lib, Lines(block))
  {
    forall name ensures Named(lib, block, name) <==> name == EventName(lib, Lines(block)) {
      NameOfLines(lib, Lines(block), name);
    }
  }

  /** What consuming one block does. */
  lemma BlockEffect(lib: Library, flags: Flags, block: string)
    ensures var step := Consume(lib, flags, block);
            if Fails(lib, block) then
              step.Stopped? &&
              step.failure == if lib.decode(Payload(lib, block)) == InvalidJson then BadEvent else ErrorEvent
            else
              && step.Going? && (step.flags.sawData <==> flags.sawData || HasData(lib, block))
              && (step.flags.terminal <==> flags.terminal || Closes(lib, block))
  {
    hide Named, Lines, DataLines, DataValues, Join, Spread, EventName;
    DataLinesAreValues(Lines(block));
    JoinIsSpread(DataLines(Lines(block)));
    NamedIsEventName(lib, block);
    var name := EventName(lib, Lines(block));
    assert Named(lib, block, name);
  }

  // ---------------------------------------------------------------- the blocks of a text

  /** The blocks that a blank line ends, and the rest unless it is white space. */
  function AllBlocks(lib: Library, text: string): seq<string> {
    var rest := Remainder(ToLf(text));
    Blocks(ToLf(text)) + if lib.trim(rest) == "" then [] else [rest]
  }

  function Glued(blocks: seq<string>, rest: string): string {
    if blocks == [] then rest else blocks[0] + "\n\n" + Glued(blocks[1..], rest)
  }

  /** The blocks are the text cut at its blank lines: each ends at the first one behind it. */
  lemma {:induction false} BlocksAreCut(text: string)
    ensures Glued(Blocks(text), Remainder(text)) == text && Index(Remainder(text), "\n\n") < 0
    ensures forall k :: 0 <= k < |Blocks(text)| ==> Index(Blocks(text)[k] + "\n", "\n\n") < 0
    decreases |text|
  {
    var i := Index(text, "\n\n");
    if i >= 0 {
      var behind := text[i + 2..];
      var blocks := Blocks(text);
      assert blocks == [text[..i]] + Blocks(behind);
      BlocksAreCut(behind);
      assert blocks[1..] == Blocks(behind) && Remainder(text) == Remainder(behind);
      CutThere(text, i);
      forall k | 0 <= k < |blocks| ensures Index(blocks[k] + "\n", "\n\n") < 0 {
        assert k > 0 ==> blocks[k] == Blocks(behind)[k - 1];
      }
    }
  }

  lemma CutThere(text: string, i: nat)
    requires i == Index(text, "\n\n")
    ensures i + 2 <= |text| && text == text[..i] + "\n\n" + text[i + 2..] && Index(text[..i] + "\n", "\n\n") < 0
  {
    hide Index;
    assert OccursAt(text, "\n\n", i);
    Cut(text, "\n\n", i);
    SliceOfSlice(text, i, i + 2, 0, 1);
    Cut(text, "\n", i);
    var front := text[..i + 1];
    assert front == text[..i] + "\n";
    forall j | 0 <= j ensures !OccursAt(front, "\n\n", j) {
      OccursBehindCut(text, "\n\n", i + 1, j);
    }
  }

  lemma Cut(text: string, find: string, i: nat)
    requires i + |find| <= |text| && text[i..i + |find|] == find
    ensures text == text[..i] + find + text[i + |find|..] && text[..i + |find|] == text[..i] + find
  {
  }

  lemma OccursBehindCut(text: string, find: string, n: nat, j: nat)
    requires n <= |text|
    ensures OccursAt(text[..n], find, j) ==> j + |find| <= n && OccursAt(text, find, j)
  {
    if OccursAt(text[..n], find, j) {
      SliceOfSlice(text, 0, n, j, j + |find|);
    }
  }

  /** The lines of a block are the block cut at its line feeds. */
  lemma {:induction false} LinesAreCut(text: string)
    ensures Join(Lines(text)) == text
    ensures forall k :: 0 <= k < |Lines(text)| ==> '\n' !in Lines(text)[k]
    decreases |text|
  {
    var i := Index(text, "\n");
    if i < 0 {
      forall k | 0 <= k < |text| ensures text[k] != '\n' {
        assert !OccursAt(text, "\n", k);
        assert text[k..k + 1] == [text[k]];
      }
    } else {
      LinesAreCut(text[i + 1..]);
      assert OccursAt(text, "\n", i);
      assert text == text[..i] + text[i..i + 1] + text[i + 1..];
      forall k | 0 <= k < i ensures text[k] != '\n' {
        assert !OccursAt(text, "\n", k);
        assert text[k..k + 1] == [text[k]];
      }
    }
  }

  // ---------------------------------------------------------------- the verdict

  ghost predicate SomeData(lib: Library, blocks: seq<string>) {
    exists k :: 0 <= k < |blocks| && HasData(lib, blocks[k])
  }

  ghost predicate SomeClose(lib: Library, blocks: seq<string>) {
    exists k :: 0 <= k < |blocks| && Closes(lib, blocks[k])
  }

  ghost predicate FailsFirst(lib: Library, blocks: seq<string>, k: nat)
    requires k < |blocks|
  {
    Fails(lib, blocks[k]) && forall j :: 0 <= j < k ==> !Fails(lib, blocks[j])
  }

  ghost predicate NoneFails(lib: Library, blocks: seq<string>) {
    forall k :: 0 <= k < |blocks| ==> !Fails(lib, blocks[k])
  }

  lemma {:induction false} FoldIsExactly(lib: Library, flags: Flags, blocks: seq<string>)
    ensures var step := Fold(lib, flags, blocks);
            && (step.Going? <==> NoneFails(lib, blocks))
            && (step.Going? ==>
                  && (step.flags.sawData <==> flags.sawData || SomeData(lib, blocks))
                  && (step.flags.terminal <==> flags.terminal || SomeClose(lib, blocks)))
            && (forall k :: 0 <= k < |blocks| && FailsFirst(lib, blocks, k) ==>
                  step.Stopped? &&
                  step.failure == if lib.decode(Payload(lib, blocks[k])) == InvalidJson then BadEvent else ErrorEvent)
    decreases |blocks|
  {
    hide Fails, HasData, Closes, Consume, Payload;
    if blocks != [] {
      BlockEffect(lib, flags, blocks[0]);
      var rest := blocks[1..];
      var first := Consume(lib, flags, blocks[0]);
      if first.Going? {
        FoldIsExactly(lib, first.flags, rest);
        FirstOrRest(lib, blocks);
      }
    }
  }

  lemma FirstOrRest(lib: Library, blocks: seq<string>)
    requires blocks != [] && !Fails(lib, blocks[0])
    ensures NoneFails(lib, blocks) <==> NoneFails(lib, blocks[1..])
    ensures SomeData(lib, blocks) <==> HasData(lib, blocks[0]) || SomeData(lib, blocks[1..])
    ensures SomeClose(lib, blocks) <==> Closes(lib, blocks[0]) || SomeClose(lib, blocks[1..])
    ensures forall k :: 0 <= k < |blocks| && FailsFirst(lib, blocks, k) ==>
              k > 0 && FailsFirst(lib, blocks[1..], k - 1) && blocks[k] == blocks[1..][k - 1]
  {
    hide Fails, HasData, Closes;
    var rest := blocks[1..];
    assert forall k :: 1 <= k < |blocks| ==> blocks[k] == rest[k - 1];
    assert forall k :: 0 <= k < |rest| ==> rest[k] == blocks[k + 1];
  }

  lemma FoldJoins(lib: Library, flags: Flags, blocks: seq<string>, last: string)
    ensures Fold(lib, flags, blocks + [last]) ==
            match Fold(lib, flags, blocks)
            case Going(next) => Consume(lib, next, last)
            case Stopped(next, failure) => Stopped(next, failure)
    decreases |blocks|
  {
    hide Consume;
    var all := blocks + [last];
    if blocks == [] {
      assert all[1..] == [];
    } else {
      assert all[1..] == blocks[1..] + [last] && all[0] == blocks[0];
      var first := Consume(lib, flags, blocks[0]);
      if first.Going? {
        FoldJoins(lib, first.flags, blocks[1..], last);
      }
    }
  }

  /** The verdict on a text is read off its blocks. */
  lemma JudgedExactly(lib: Library, text: string)
    ensures var blocks, verdict := AllBlocks(lib, text), Judge(lib, text);
            && (verdict == Accepted <==>
                  NoneFails(lib, blocks) && SomeData(lib, blocks) && SomeClose(lib, blocks))
            && (verdict == Rejected(NoData) <==> NoneFails(lib, blocks) && !SomeData(lib, blocks))
            && (verdict == Rejected(NotTerminal) <==>
                  NoneFails(lib, blocks) && SomeData(lib, blocks) && !SomeClose(lib, blocks))
            && (forall k :: 0 <= k < |blocks| && FailsFirst(lib, blocks, k) ==>
                  verdict ==
                  Rejected(if lib.decode(Payload(lib, blocks[k])) == InvalidJson then BadEvent else ErrorEvent))
  {
    hide Consume, Fold, Blocks, Remainder, ToLf, NoneFails, SomeData, SomeClose, FailsFirst, Payload;
    var cut, rest := Blocks(ToLf(text)), Remainder(ToLf(text));
    if lib.trim(rest) == "" {
      assert cut + [] == cut;
      FoldIsExactly(lib, FRESH, cut);
      FailureIsOneOfTwo(lib, FRESH, cut);
    } else {
      FoldJoins(lib, FRESH, cut, rest);
      FoldIsExactly(lib, FRESH, cut + [rest]);
      FailureIsOneOfTwo(lib, FRESH, cut + [rest]);
    }
  }

  lemma {:induction false} FailureIsOneOfTwo(lib: Library, flags: Flags, blocks: seq<string>)
    ensures var step := Fold(lib, flags, blocks);
            step.Stopped? ==> step.failure == BadEvent || step.failure == ErrorEvent
    decreases |blocks|
  {
    hide Consume;
    if blocks != [] {
      BlockEffect(lib, flags, blocks[0]);
      if Consume(lib, flags, blocks[0]).Going? {
        FailureIsOneOfTwo(lib, Consume(lib, flags, blocks[0]).flags, blocks[1..]);
      }
    }
  }

  /**
   * However a stream is cut, it is accepted exactly if no block fails, some block has data and some block closes the
   * stream; otherwise the first failing block, the missing data or the missing close decides the error.
   */
  lemma AcceptedExactly(lib: Library, chunks: seq<string>)
    requires Lawful(lib)
    ensures var blocks, verdict := AllBlocks(lib, Concat(chunks)), Run(lib, State("", FRESH), chunks);
            && (verdict == Accepted <==>
                  NoneFails(lib, blocks) && SomeData(lib, blocks) && SomeClose(lib, blocks))
            && (verdict == Rejected(NoData) <==> NoneFails(lib, blocks) && !SomeData(lib, blocks))
            && (verdict == Rejected(NotTerminal) <==>
                  NoneFails(lib, blocks) && SomeData(lib, blocks) && !SomeClose(lib, blocks))
            && (forall k :: 0 <= k < |blocks| && FailsFirst(lib, blocks, k) ==>
                  verdict ==
                  Rejected(if lib.decode(Payload(lib, blocks[k])) == InvalidJson then BadEvent else ErrorEvent))
  {
    hide Run, Judge, AllBlocks, NoneFails, SomeData, SomeClose, FailsFirst, Payload;
    IncrementalIsWholeText(lib, chunks);
    JudgedExactly(lib, Concat(chunks));
  }
}
