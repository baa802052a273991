/** The incremental check of server-sent events: stream_proxy.go, `eventStreamIntegrity`. */
module EventStream {
  import opened Text

  /** What the JSON library and the payload rules say about a block's data. */
  datatype Verdict = InvalidJson | UpstreamError | TerminalEvent | PlainEvent

  /** The string and JSON functions of the standard library, kept as parameters. */
  datatype Library = Library(trim: string -> string, lower: string -> string, equalFold: (string, string) -> bool,
                             decode: string -> Verdict)

  datatype Failure = BadEvent | ErrorEvent | NoData | NotTerminal

  /** `Accepted` is the nil error. */
  datatype Outcome = Accepted | Rejected(failure: Failure)

  datatype Flags = Flags(sawData: bool, terminal: bool)

  const FRESH := Flags(false, false)

  /** The effect of one block or of a whole feed: the flags, and the failure that stopped it. */
  datatype Step = Going(flags: Flags) | Stopped(flags: Flags, failure: Failure) {
    function Error(): Outcome {
      if Going? then Accepted else Rejected(failure)
    }
  }

  // ---------------------------------------------------------------- one block

  function Lines(text: string): (lines: seq<string>)
    ensures lines != []
    decreases |text|
  {
    var i := Index(text, "\n");
    if i < 0 then [text] else [text[..i]] + Lines(text[i + 1..])
  }

  function DropPrefix(text: string, prefix: string): string {
    if prefix <= text then text[|prefix|..] else text
  }

  function DataOf(line: string): string {
    DropPrefix(DropPrefix(line, "data:"), " ")
  }

  function DataLines(lines: seq<string>): seq<string> {
    if lines == [] then []
    else
      var front := DataLines(lines[..|lines| - 1]);
      var line := lines[|lines| - 1];
      if "data:" <= line then front + [DataOf(line)] else front
  }

  function EventName(lib: Library, lines: seq<string>): string {
    if lines == [] then ""
    else
      var line := lines[|lines| - 1];
      if "event:" <= line then lib.trim(DropPrefix(line, "event:")) else EventName(lib, lines[..|lines| - 1])
  }

  function Join(parts: seq<string>): string {
    if parts == [] then "" else if |parts| == 1 then parts[0] else parts[0] + "\n" + Join(parts[1..])
  }

  predicate EndsStream(name: string) {
    name == "done" || name == "message_stop" || name == "response.completed" || name == "response.incomplete"
  }

  /** What the name and the data lines of a block do. */
  function Effect(lib: Library, flags: Flags, name: string, dataLines: seq<string>): Step {
    var named := if EndsStream(lib.lower(lib.trim(name))) then flags.(terminal := true) else flags;
    var data := lib.trim(Join(dataLines));
    if dataLines == [] || data == "" then Going(named)
    else
      var seen := named.(sawData := true);
      if data == "[DONE]" then Going(seen.(terminal := true))
      else match lib.decode(data)
        case InvalidJson => Stopped(seen, BadEvent)
        case UpstreamError => Stopped(seen, ErrorEvent)
        case TerminalEvent => Going(seen.(terminal := true))
        case PlainEvent => Going(if lib.equalFold(name, "done") then seen.(terminal := true) else seen)
  }

  function Consume(lib: Library, flags: Flags, block: string): Step {
    Effect(lib, flags, EventName(lib, Lines(block)), DataLines(Lines(block)))
  }

  // ---------------------------------------------------------------- line endings

  predicate EndsInCR(text: string) {
    text != "" && text[|text| - 1] == '\r'
  }

  /** Two replacement passes; a CR at the end waits for the next chunk unless the text is final. */
  function Normalize(value: string, final: bool): string {
    var pendingCR := !final && EndsInCR(value);
    var text := if pendingCR then value[..|value| - 1] else value;
    var plain := ReplaceAll(ReplaceAll(text, "\r\n", "\n"), "\r", "\n");
    if pendingCR then plain + "\r" else plain
  }

  predicate StartsCrLf(text: string) {
    |text| >= 2 && text[0] == '\r' && text[1] == '\n'
  }

  /** All line endings at once: CRLF, CR and LF each become LF. */
  function ToLf(text: string): string
    decreases |text|
  {
    if text == "" then ""
    else if StartsCrLf(text) then ['\n'] + ToLf(text[2..])
    else [if text[0] == '\r' then '\n' else text[0]] + ToLf(text[1..])
  }

  /** Everything but a CR in the last place. */
  function Settled(text: string): string {
    if EndsInCR(text) then text[..|text| - 1] else text
  }

  function HeldCR(text: string): string {
    if EndsInCR(text) then "\r" else ""
  }

  // ---------------------------------------------------------------- the incremental parser

  datatype State = State(buffer: string, flags: Flags)

  datatype Drained = Drained(step: Step, buffer: string)

  /** The loop of `Push`: take blocks off the front until none is complete or one fails. */
  function Drain(lib: Library, flags: Flags, buffer: string): Drained
    decreases |buffer|
  {
    var i := Index(buffer, "\n\n");
    if i < 0 then Drained(Going(flags), buffer)
    else match Consume(lib, flags, buffer[..i])
      case Going(next) => Drain(lib, next, buffer[i + 2..])
      case Stopped(next, failure) => Drained(Stopped(next, failure), buffer)
  }

  function PushStep(lib: Library, state: State, chunk: string): Drained {
    Drain(lib, state.flags, Normalize(state.buffer + chunk, false))
  }

  function Closing(flags: Flags): Outcome {
    if !flags.sawData then Rejected(NoData) else if !flags.terminal then Rejected(NotTerminal) else Accepted
  }

  /** The rest that no blank line ended, then the closing checks. */
  function CloseWith(lib: Library, flags: Flags, last: string): Outcome {
    if lib.trim(last) == "" then Closing(flags)
    else match Consume(lib, flags, last)
      case Going(next) => Closing(next)
      case Stopped(_, failure) => Rejected(failure)
  }

  function FinishOutcome(lib: Library, state: State): Outcome {
    CloseWith(lib, state.flags, Normalize(state.buffer, true))
  }

  class EventStreamIntegrity {
    const lib: Library
    var buffer: string
    var sawData: bool
    var terminal: bool

    function Abstract(): State
      reads this
    {
      State(buffer, Flags(sawData, terminal))
    }

    constructor (lib: Library)
      ensures this.lib == lib && Abstract() == State("", FRESH)
    {
      this.lib := lib;
      buffer, sawData, terminal := "", false, false;
    }

    method Push(chunk: string) returns (err: Outcome)
      modifies this
      ensures var r := PushStep(lib, old(Abstract()), chunk);
              err == r.step.Error() && Abstract() == State(r.buffer, r.step.flags)
    {
      buffer := buffer + chunk;
      buffer := Normalize(buffer, false);
      ghost var whole := Drain(lib, Flags(sawData, terminal), buffer);
      while true
        invariant whole == Drain(lib, Flags(sawData, terminal), buffer)
        decreases |buffer|
      {
        var index := Index(buffer, "\n\n");
        if index < 0 {
          return Accepted;
        }
        err := ConsumeBlock(buffer[..index]);
        if err != Accepted {
          return;
        }
        buffer := buffer[index + 2..];
      }
    }

    method Finish() returns (err: Outcome)
      modifies this
      ensures err == FinishOutcome(lib, old(Abstract()))
    {
      buffer := Normalize(buffer, true);
      if lib.trim(buffer) != "" {
        err := ConsumeBlock(buffer);
        if err != Accepted {
          return;
        }
      }
      buffer := "";
      if !sawData {
        return Rejected(NoData);
      }
      if !terminal {
        return Rejected(NotTerminal);
      }
      return Accepted;
    }

    method ConsumeBlock(block: string) returns (err: Outcome)
      modifies this`sawData, this`terminal
      ensures var r := Consume(lib, old(Flags(sawData, terminal)), block);
              err == r.Error() && Flags(sawData, terminal) == r.flags
    {
      var dataLines, eventName := [], "";
      var lines := Lines(block);
      for i := 0 to |lines|
        invariant dataLines == DataLines(lines[..i]) && eventName == EventName(lib, lines[..i])
      {
        var line := lines[i];
        assert lines[..i + 1][..i] == lines[..i];
        if "data:" <= line {
          dataLines := dataLines + [DataOf(line)];
        }
        if "event:" <= line {
          eventName := lib.trim(DropPrefix(line, "event:"));
        }
      }
      assert lines[..|lines|] == lines;
      if EndsStream(lib.lower(lib.trim(eventName))) {
        terminal := true;
      }
      if dataLines == [] {
        return Accepted;
      }
      var data := lib.trim(Join(dataLines));
      if data == "" {
        return Accepted;
      }
      sawData := true;
      if data == "[DONE]" {
        terminal := true;
        return Accepted;
      }
      var payload := lib.decode(data);
      if payload == InvalidJson {
        return Rejected(BadEvent);
      }
      if payload == UpstreamError {
        return Rejected(ErrorEvent);
      }
      if lib.equalFold(eventName, "done") || payload == TerminalEvent {
        terminal := true;
      }
      return Accepted;
    }
  }

  /** Feed the chunks in order; the first failing push decides, otherwise `Finish` does. */
  function Run(lib: Library, state: State, chunks: seq<string>): Outcome
    decreases |chunks|
  {
    if chunks == [] then FinishOutcome(lib, state)
    else
      var r := PushStep(lib, state, chunks[0]);
      if r.step.Stopped? then Rejected(r.step.failure)
      else Run(lib, State(r.buffer, r.step.flags), chunks[1..])
  }

  // ---------------------------------------------------------------- the whole-text reference

  /** The complete blocks of LF text, and what follows the last blank line. */
  function Blocks(text: string): seq<string>
    decreases |text|
  {
    var i := Index(text, "\n\n");
    if i < 0 then [] else [text[..i]] + Blocks(text[i + 2..])
  }

  function Remainder(text: string): string
    decreases |text|
  {
    var i := Index(text, "\n\n");
    if i < 0 then text else Remainder(text[i + 2..])
  }

  function Fold(lib: Library, flags: Flags, blocks: seq<string>): Step
    decreases |blocks|
  {
    if blocks == [] then Going(flags)
    else match Consume(lib, flags, blocks[0])
      case Going(next) => Fold(lib, next, blocks[1..])
      case Stopped(next, failure) => Stopped(next, failure)
  }

  /** Normalise everything, cut at blank lines, fold the blocks, close with the remainder. */
  function Judge(lib: Library, text: string): Outcome {
    match Fold(lib, FRESH, Blocks(ToLf(text)))
    case Going(flags) => CloseWith(lib, flags, Remainder(ToLf(text)))
    case Stopped(_, failure) => Rejected(failure)
  }

  /** What the real trimming and lower-casing functions satisfy. */
  ghost predicate Lawful(lib: Library) {
    lib.trim("") == "" && lib.lower("") == "" && forall s :: lib.trim(s) == "" ==> ':' !in s
  }

  // ---------------------------------------------------------------- normalisation

  lemma {:induction false} TwoPassesAreOne(text: string)
    ensures ReplaceAll(ReplaceAll(text, "\r\n", "\n"), "\r", "\n") == ToLf(text)
    decreases |text|
  {
    if text != "" {
      assert "\r\n" <= text <==> StartsCrLf(text);
      var rest := if StartsCrLf(text) then text[2..] else text[1..];
      var head := if StartsCrLf(text) then '\n' else text[0];
      var inner := ReplaceAll(rest, "\r\n", "\n");
      TwoPassesAreOne(rest);
      assert ReplaceAll(text, "\r\n", "\n") == [head] + inner;
      assert ([head] + inner)[0] == head && ([head] + inner)[1..] == inner;
      assert "\r" <= [head] + inner <==> head == '\r';
    }
  }

  /** Line endings are converted independently on both sides of any cut that does not divide a CRLF. */
  lemma {:induction false} ToLfSplits(front: string, back: string)
    requires !(EndsInCR(front) && back != "" && back[0] == '\n')
    ensures ToLf(front + back) == ToLf(front) + ToLf(back)
    decreases |front|
  {
    var text := front + back;
    if front == "" {
      EmptySides(back);
      EmptySides(ToLf(back));
    } else {
      assert text[0] == front[0] && (|text| > 1 ==> text[1] == if |front| > 1 then front[1] else back[0]);
      var step := if StartsCrLf(front) then 2 else 1;
      var rest := front[step..];
      assert text[step..] == rest + back;
      ToLfSplits(rest, back);
      Assoc([if text[0] == '\r' then '\n' else text[0]], ToLf(rest), ToLf(back));
    }
  }

  lemma {:induction false} ToLfHasNoCR(text: string)
    ensures '\r' !in ToLf(text)
    decreases |text|
  {
    if text != "" {
      ToLfHasNoCR(text[1..]);
      if |text| > 1 {
        ToLfHasNoCR(text[2..]);
      }
    }
  }

  lemma {:induction false} ToLfKeepsPlain(text: string)
    requires '\r' !in text
    ensures ToLf(text) == text
    decreases |text|
  {
    if text != "" {
      assert text[0] in text;
      ToLfKeepsPlain(text[1..]);
    }
  }

  lemma NormalizeIs(value: string)
    ensures Normalize(value, false) == ToLf(Settled(value)) + HeldCR(value)
    ensures Normalize(value, true) == ToLf(value)
  {
    TwoPassesAreOne(Settled(value));
    TwoPassesAreOne(value);
  }

  lemma SettledHeld(text: string)
    ensures Settled(text) + HeldCR(text) == text
  {
  }

  // ---------------------------------------------------------------- draining a growing buffer

  lemma IndexIs(text: string, find: string, i: nat)
    requires OccursAt(text, find, i) && forall j :: 0 <= j < i ==> !OccursAt(text, find, j)
    ensures Index(text, find) == i
  {
  }

  lemma OccursInFront(front: string, back: string, find: string, j: int)
    requires j + |find| <= |front|
    ensures OccursAt(front + back, find, j) <==> OccursAt(front, find, j)
  {
  }

  lemma IndexStable(front: string, back: string, find: string)
    requires find != "" && Index(front, find) >= 0
    ensures Index(front + back, find) == Index(front, find)
  {
    var i := Index(front, find);
    OccursInFront(front, back, find, i);
    forall j | 0 <= j < i ensures !OccursAt(front + back, find, j) {
      OccursInFront(front, back, find, j);
    }
    IndexIs(front + back, find, i);
  }

  /** Draining `front + back` is draining `front` and going on with what it leaves. */
  lemma {:induction false} DrainAppend(lib: Library, flags: Flags, front: string, back: string)
    ensures var r := Drain(lib, flags, front);
            var whole := Drain(lib, flags, front + back);
            if r.step.Going? then whole == Drain(lib, r.step.flags, r.buffer + back) else whole.step == r.step
    decreases |front|
  {
    hide Consume;
    var i := Index(front, "\n\n");
    if i >= 0 {
      IndexStable(front, back, "\n\n");
      assert (front + back)[..i] == front[..i];
      assert (front + back)[i + 2..] == front[i + 2..] + back;
      var block := Consume(lib, flags, front[..i]);
      if block.Going? {
        DrainAppend(lib, block.flags, front[i + 2..], back);
      }
    }
  }

  /** What is left has no blank line. */
  lemma {:induction false} NoBlankLineLeft(lib: Library, flags: Flags, buffer: string)
    ensures var r := Drain(lib, flags, buffer); r.step.Going? ==> Index(r.buffer, "\n\n") < 0
    decreases |buffer|
  {
    hide Consume, Index;
    var i := Index(buffer, "\n\n");
    if i >= 0 {
      var block := Consume(lib, flags, buffer[..i]);
      if block.Going? {
        NoBlankLineLeft(lib, block.flags, buffer[i + 2..]);
      }
    }
  }

  /** What is left is an end of the buffer. */
  lemma {:induction false} EndLeft(lib: Library, flags: Flags, buffer: string) returns (from: nat)
    ensures from <= |buffer| && Drain(lib, flags, buffer).buffer == buffer[from..]
    decreases |buffer|
  {
    hide Consume;
    from := 0;
    var i := Index(buffer, "\n\n");
    if i >= 0 {
      var block := Consume(lib, flags, buffer[..i]);
      if block.Going? {
        var behind := EndLeft(lib, block.flags, buffer[i + 2..]);
        from := i + 2 + behind;
        SliceOfSlice(buffer, i + 2, |buffer|, behind, |buffer| - i - 2);
      }
    }
  }

  lemma DrainLeaves(lib: Library, flags: Flags, buffer: string)
    ensures var r := Drain(lib, flags, buffer);
            (r.step.Going? ==> Index(r.buffer, "\n\n") < 0) && ('\r' !in buffer ==> '\r' !in r.buffer)
  {
    NoBlankLineLeft(lib, flags, buffer);
    var from := EndLeft(lib, flags, buffer);
  }

  /** A held CR makes no blank line. */
  lemma DrainHeldCR(lib: Library, flags: Flags, text: string, cr: string)
    requires cr == "" || cr == "\r"
    ensures var r := Drain(lib, flags, text);
            var held := Drain(lib, flags, text + cr);
            held.step == r.step && (r.step.Going? ==> held.buffer == r.buffer + cr)
  {
    hide Consume;
    DrainAppend(lib, flags, text, cr);
    DrainLeaves(lib, flags, text);
    var r := Drain(lib, flags, text);
    if r.step.Going? {
      var i := Index(r.buffer + cr, "\n\n");
      if i >= 0 {
        assert (r.buffer + cr)[i..i + 2][1] == (r.buffer + cr)[i + 1];
        OccursInFront(r.buffer, cr, "\n\n", i);
        assert false;
      }
    }
  }

  // ---------------------------------------------------------------- chunking does not matter

  /** The verdict on `text` by the code's own steps, without chunks. */
  function Direct(lib: Library, text: string): Outcome {
    var r := Drain(lib, FRESH, ToLf(Settled(text)));
    if r.step.Stopped? then Rejected(r.step.failure)
    else CloseWith(lib, r.step.flags, r.buffer + ToLf(HeldCR(text)))
  }

  /** The parser state after everything in `fed` passed. */
  ghost predicate Tracks(lib: Library, fed: string, state: State) {
    exists rest ::
      && Drain(lib, FRESH, ToLf(Settled(fed))) == Drained(Going(state.flags), rest)
      && state.buffer == rest + HeldCR(fed)
  }

  lemma TracksAtStart(lib: Library)
    ensures Tracks(lib, "", State("", FRESH))
  {
    assert Drain(lib, FRESH, ToLf(Settled(""))) == Drained(Going(FRESH), "");
    assert "" == "" + HeldCR("");
  }

  lemma SettledOfSum(front: string, back: string)
    requires back != ""
    ensures Settled(front + back) == front + Settled(back) && HeldCR(front + back) == HeldCR(back)
  {
  }

  /** A chunk extends the settled text by the settled part of the held CR and the chunk. */
  lemma SettledGrows(fed: string, chunk: string)
    ensures var add := HeldCR(fed) + chunk;
            && Settled(fed + chunk) == Settled(fed) + Settled(add)
            && HeldCR(fed + chunk) == HeldCR(add)
            && ToLf(Settled(fed + chunk)) == ToLf(Settled(fed)) + ToLf(Settled(add))
  {
    var add := HeldCR(fed) + chunk;
    SettledHeld(fed);
    Assoc(Settled(fed), HeldCR(fed), chunk);
    if add == "" {
      EmptySides(fed);
      EmptySides(Settled(fed));
      EmptySides(ToLf(Settled(fed)));
    } else {
      SettledOfSum(Settled(fed), add);
      CutKeepsCrLf(fed, chunk);
      ToLfSplits(Settled(fed), Settled(add));
    }
  }

  lemma CutKeepsCrLf(fed: string, chunk: string)
    ensures var back := Settled(HeldCR(fed) + chunk); !(EndsInCR(Settled(fed)) && back != "" && back[0] == '\n')
  {
  }

  /** The buffer after normalisation: what was left, the new settled text in LF form, the CR held now. */
  lemma NormalizedBuffer(rest: string, fed: string, chunk: string)
    requires '\r' !in rest
    ensures var add := HeldCR(fed) + chunk;
            Normalize(rest + HeldCR(fed) + chunk, false) == rest + ToLf(Settled(add)) + HeldCR(add)
  {
    var add := HeldCR(fed) + chunk;
    Assoc(rest, HeldCR(fed), chunk);
    NormalizeIs(rest + add);
    ToLfKeepsPlain(rest);
    if add == "" {
      EmptySides(rest);
    } else {
      SettledOfSum(rest, add);
      ToLfSplits(rest, Settled(add));
    }
  }

  lemma PushTracks(lib: Library, fed: string, state: State, chunk: string)
    requires Tracks(lib, fed, state)
    ensures var r := PushStep(lib, state, chunk);
            && (r.step.Going? ==> Tracks(lib, fed + chunk, State(r.buffer, r.step.flags)))
            && (r.step.Stopped? ==> forall more :: Direct(lib, fed + chunk + more) == Rejected(r.step.failure))
  {
    hide Consume;
    var settled, add := ToLf(Settled(fed)), HeldCR(fed) + chunk;
    var rest :| Drain(lib, FRESH, settled) == Drained(Going(state.flags), rest) && state.buffer == rest + HeldCR(fed);
    ToLfHasNoCR(Settled(fed));
    DrainLeaves(lib, FRESH, settled);
    NormalizedBuffer(rest, fed, chunk);
    SettledGrows(fed, chunk);
    DrainHeldCR(lib, state.flags, rest + ToLf(Settled(add)), HeldCR(add));
    DrainAppend(lib, FRESH, settled, ToLf(Settled(add)));
    var r := PushStep(lib, state, chunk);
    assert r.step == Drain(lib, FRESH, ToLf(Settled(fed + chunk))).step;
    if r.step.Stopped? {
      forall more ensures Direct(lib, fed + chunk + more) == Rejected(r.step.failure) {
        SettledGrows(fed + chunk, more);
        DrainAppend(lib, FRESH, ToLf(Settled(fed + chunk)), ToLf(Settled(HeldCR(fed + chunk) + more)));
      }
    }
  }

  lemma FinishTracks(lib: Library, fed: string, state: State)
    requires Tracks(lib, fed, state)
    ensures FinishOutcome(lib, state) == Direct(lib, fed)
  {
    hide Consume;
    var settled := ToLf(Settled(fed));
    var rest :| Drain(lib, FRESH, settled) == Drained(Going(state.flags), rest) && state.buffer == rest + HeldCR(fed);
    ToLfHasNoCR(Settled(fed));
    DrainLeaves(lib, FRESH, settled);
    NormalizeIs(state.buffer);
    ToLfSplits(rest, HeldCR(fed));
    ToLfKeepsPlain(rest);
  }

  lemma {:induction false} RunTracks(lib: Library, fed: string, state: State, chunks: seq<string>)
    requires Tracks(lib, fed, state)
    ensures Run(lib, state, chunks) == Direct(lib, fed + Concat(chunks))
    decreases |chunks|
  {
    if chunks == [] {
      FinishTracks(lib, fed, state);
      EmptySides(fed);
    } else {
      var r := PushStep(lib, state, chunks[0]);
      PushTracks(lib, fed, state, chunks[0]);
      Assoc(fed, chunks[0], Concat(chunks[1..]));
      if r.step.Going? {
        RunTracks(lib, fed + chunks[0], State(r.buffer, r.step.flags), chunks[1..]);
      }
    }
  }

  /** The verdict depends on the concatenated text alone. */
  lemma ChunkingIsIrrelevant(lib: Library, chunks: seq<string>)
    ensures Run(lib, State("", FRESH), chunks) == Run(lib, State("", FRESH), [Concat(chunks)])
  {
    TracksAtStart(lib);
    RunTracks(lib, "", State("", FRESH), chunks);
    RunTracks(lib, "", State("", FRESH), [Concat(chunks)]);
    var text := Concat(chunks);
    EmptySides(text);
    assert [text][1..] == [] && Concat([text]) == text + "";
  }

  // ---------------------------------------------------------------- the reference

  lemma {:induction false} DrainFolds(lib: Library, flags: Flags, text: string)
    ensures var r := Drain(lib, flags, text);
            r.step == Fold(lib, flags, Blocks(text)) && (r.step.Going? ==> r.buffer == Remainder(text))
    decreases |text|
  {
    hide Consume;
    var i := Index(text, "\n\n");
    if i >= 0 {
      var behind := text[i + 2..];
      var blocks := Blocks(text);
      assert blocks == [text[..i]] + Blocks(behind);
      assert blocks[0] == text[..i] && blocks[1..] == Blocks(behind);
      var block := Consume(lib, flags, text[..i]);
      if block.Going? {
        DrainFolds(lib, block.flags, behind);
      }
    }
  }

  lemma FirstLineFeed(text: string)
    requires Index(text, "\n") < 0
    ensures Index(text + "\n", "\n") == |text|
  {
    forall j | 0 <= j < |text| ensures !OccursAt(text + "\n", "\n", j) {
      OccursInFront(text, "\n", "\n", j);
    }
    IndexIs(text + "\n", "\n", |text|);
  }

  lemma {:induction false} LinesGrow(text: string)
    ensures Lines(text + "\n") == Lines(text) + [""]
    decreases |text|
  {
    hide Index;
    var i, whole := Index(text, "\n"), text + "\n";
    if i < 0 {
      FirstLineFeed(text);
      assert whole[..|text|] == text && whole[|text| + 1..] == "";
      NoLines();
    } else {
      var behind := text[i + 1..];
      LinesGrow(behind);
      IndexStable(text, "\n", "\n");
      assert whole[..i] == text[..i];
      assert whole[i + 1..] == behind + "\n";
    }
  }

  lemma NoLines()
    ensures Lines("") == [""]
  {
  }

  lemma EmptyLineAddsNothing(lib: Library, flags: Flags, block: string)
    ensures Consume(lib, flags, block + "\n") == Consume(lib, flags, block)
  {
    LinesGrow(block);
    var lines := Lines(block);
    assert (lines + [""])[..|lines|] == lines;
  }

  lemma {:induction false} LinesWithoutColon(text: string)
    requires ':' !in text
    ensures forall k :: 0 <= k < |Lines(text)| ==> ':' !in Lines(text)[k]
    decreases |text|
  {
    var i := Index(text, "\n");
    if i >= 0 {
      LinesWithoutColon(text[i + 1..]);
    }
  }

  lemma FieldHasColon(line: string, field: string)
    requires ':' in field
    ensures field <= line ==> ':' in line
  {
  }

  lemma {:induction false} NoColonNoFields(lib: Library, lines: seq<string>)
    requires forall k :: 0 <= k < |lines| ==> ':' !in lines[k]
    ensures DataLines(lines) == [] && EventName(lib, lines) == ""
    decreases |lines|
  {
    if lines != [] {
      var line := lines[|lines| - 1];
      FieldHasColon(line, "data:");
      FieldHasColon(line, "event:");
      NoColonNoFields(lib, lines[..|lines| - 1]);
    }
  }

  /** A block of white space only changes nothing. */
  lemma BlankBlock(lib: Library, flags: Flags, block: string)
    requires Lawful(lib) && ':' !in block
    ensures Consume(lib, flags, block) == Going(flags)
  {
    LinesWithoutColon(block);
    NoColonNoFields(lib, Lines(block));
  }

  /** Closing with a block whose blank line was not cut off is consuming the block. */
  lemma UncutBlankLine(lib: Library, flags: Flags, block: string)
    requires Lawful(lib)
    ensures CloseWith(lib, flags, block + "\n" + "\n") ==
            match Consume(lib, flags, block)
            case Going(next) => Closing(next)
            case Stopped(_, failure) => Rejected(failure)
  {
    EmptyLineAddsNothing(lib, flags, block);
    EmptyLineAddsNothing(lib, flags, block + "\n");
    var last := block + "\n" + "\n";
    if lib.trim(last) == "" {
      forall k | 0 <= k < |block| ensures block[k] != ':' {
        assert last[k] == block[k] && last[k] in last;
      }
      BlankBlock(lib, flags, block);
    }
  }

  /** Text whose first blank line is its end is one block. */
  lemma OneBlock(text: string, i: nat)
    requires Index(text, "\n\n") == i && i + 2 == |text|
    ensures text == text[..i] + "\n" + "\n" && Blocks(text) == [text[..i]] && Remainder(text) == ""
  {
    hide Index;
    var n := |text|;
    assert OccursAt(text, "\n\n", i);
    SliceOfSlice(text, 0, n, i, n);
    assert text[i..] == text[i..n] == "\n\n" == "\n" + "\n";
    Joined(text, i);
    Assoc(text[..i], "\n", "\n");
    var behind := text[i + 2..];
    assert behind == "";
    NoBlocks();
    assert [text[..i]] + [] == [text[..i]];
  }

  lemma NoBlocks()
    ensures Blocks("") == [] && Remainder("") == ""
  {
  }

  /** Ending the remainder with one more LF is the same as closing with it, split or not. */
  lemma LastLineFeed(lib: Library, flags: Flags, rest: string)
    requires Lawful(lib) && Index(rest, "\n\n") < 0
    ensures var last := rest + "\n";
            CloseWith(lib, flags, last) ==
            match Fold(lib, flags, Blocks(last))
            case Going(next) => CloseWith(lib, next, Remainder(last))
            case Stopped(_, failure) => Rejected(failure)
  {
    var last := rest + "\n";
    var i := Index(last, "\n\n");
    if i >= 0 {
      if i + 2 <= |rest| {
        OccursInFront(rest, "\n", "\n\n", i);
        assert false;
      }
      OneBlock(last, i);
      UncutBlankLine(lib, flags, last[..i]);
      assert [last[..i]][1..] == [];
    }
  }

  lemma DirectIsJudge(lib: Library, text: string)
    requires Lawful(lib)
    ensures Direct(lib, text) == Judge(lib, text)
  {
    var settled := ToLf(Settled(text));
    DrainFolds(lib, FRESH, settled);
    if HeldCR(text) == "" {
      assert Settled(text) == text;
      EmptySides(Remainder(settled));
    } else {
      SettledHeld(text);
      ToLfSplits(Settled(text), "\r");
      assert ToLf("\r") == "\n";
      assert ToLf(text) == settled + "\n";
      DrainFolds(lib, FRESH, settled + "\n");
      DrainAppend(lib, FRESH, settled, "\n");
      DrainLeaves(lib, FRESH, settled);
      var r := Drain(lib, FRESH, settled);
      if r.step.Going? {
        LastLineFeed(lib, r.step.flags, r.buffer);
        DrainFolds(lib, r.step.flags, r.buffer + "\n");
      }
    }
  }

  /** For every cutting the incremental verdict is the whole-text verdict. */
  lemma IncrementalIsWholeText(lib: Library, chunks: seq<string>)
    requires Lawful(lib)
    ensures Run(lib, State("", FRESH), chunks) == Judge(lib, Concat(chunks))
  {
    TracksAtStart(lib);
    RunTracks(lib, "", State("", FRESH), chunks);
    EmptySides(Concat(chunks));
    DirectIsJudge(lib, Concat(chunks));
  }
}
