/** The streaming loop of the custom relay: custom_proxy.go, `copyCustomRelayStream`. */
module RelayStream {
  import opened Text
  import opened RelayRedactor
  import opened EventStream

  /** How a read ended; data and an end can come together. */
  datatype End = More | Eof | Fault

  datatype Read = Read(data: string, end: End)

  /** A source is the sequence of its reads; behind the last one it is at its end. */
  function ReadAt(source: seq<Read>, k: nat): Read {
    if k < |source| then source[k] else Read("", Eof)
  }

  /** Everything the source hands over from read `k` on. */
  function Upstream(source: seq<Read>, k: nat): string
    decreases |source| + 1 - k
  {
    var read := ReadAt(source, k);
    if read.end == More && k < |source| then read.data + Upstream(source, k + 1) else read.data
  }

  predicate EndsCleanly(source: seq<Read>, k: nat)
    decreases |source| + 1 - k
  {
    var read := ReadAt(source, k);
    if read.end == More && k < |source| then EndsCleanly(source, k + 1) else read.end == Eof
  }

  /** The verdict on a text handed over in one piece. */
  predicate Complete(lib: Library, text: string) {
    Run(lib, State("", FRESH), [text]) == Accepted
  }

  datatype Result = Relaying | Delivered | WriteFailed | ErrorEventSent

  /** The response writer: a failing write may have passed on any part of its argument. */
  class ResponseWriter {
    var relayed: string
    var errorEvents: nat
    /** Some write failed. */
    var broken: bool

    constructor ()
      ensures relayed == "" && errorEvents == 0 && !broken
    {
      relayed, errorEvents, broken := "", 0, false;
    }

    method Write(chunk: string) returns (ok: bool)
      modifies this`relayed, this`broken
      ensures ok ==> relayed == old(relayed) + chunk
      ensures broken == (old(broken) || !ok)
      ensures old(relayed) <= relayed <= old(relayed) + chunk
    {
      ok := *;
      var passed: nat := |chunk|;
      if !ok {
        passed :| passed <= |chunk|;
      }
      relayed, broken := relayed + chunk[..passed], broken || !ok;
    }

    method WriteStreamError()
      modifies this`errorEvents
      ensures errorEvents == old(errorEvents) + 1
    {
      errorEvents := errorEvents + 1;
    }
  }

  /** The filter is in step with what was fed, if the secret is one it is faithful for. */
  ghost predicate Follows(secret: string, fed: string, emitted: string, pending: string) {
    Feeds(MASK, secret) || InStep(secret, fed, emitted, pending)
  }

  /** What was sent begins the redaction, if the secret is one the filter is faithful for. */
  ghost predicate Begins(relayed: string, text: string, secret: string) {
    Feeds(MASK, secret) || relayed <= Redact(text, secret)
  }

  lemma StepIsPrefix(secret: string, fed: string, emitted: string, pending: string, rest: string)
    requires Follows(secret, fed, emitted, pending)
    ensures Begins(emitted, fed + rest, secret)
  {
  }

  lemma FlushIsWhole(secret: string, fed: string, emitted: string, pending: string)
    requires Follows(secret, fed, emitted, pending)
    ensures Feeds(MASK, secret) || emitted + Redact(pending, secret) == Redact(fed, secret)
  {
    if !Feeds(MASK, secret) {
      assert emitted + Redact(pending + "", secret) == Redact(fed + "", secret);
      assert pending + "" == pending && fed + "" == fed;
    }
  }

  /** A secret that replacing cannot build anew is in no part of what was sent. */
  lemma RelayedAbsent(secret: string, relayed: string, text: string)
    requires Begins(relayed, text, secret)
    ensures secret != "" && !Rebuilds(secret, MASK) ==> Index(relayed, secret) < 0
  {
    hide Rebuilds, Feeds;
    if secret != "" && !Rebuilds(secret, MASK) {
      if Feeds(MASK, secret) {
        FedIsRebuilt(secret);
      }
      AbsentExactlyWhenNotRebuilt(secret);
      forall j | 0 <= j ensures !OccursAt(relayed, secret, j) {
        assert !OccursAt(Redact(text, secret), secret, j);
      }
    }
  }

  lemma CompleteIsDirect(lib: Library, text: string)
    ensures Complete(lib, text) <==> Direct(lib, text) == Accepted
  {
    TracksAtStart(lib);
    RunTracks(lib, "", State("", FRESH), [text]);
    assert Concat([text]) == text + "" && "" + (text + "") == text;
  }

  lemma EmptyTextIncomplete(lib: Library)
    ensures Direct(lib, "") != Accepted
  {
    assert Lines("") == [""] && DataLines([""]) == DataLines([""][..0]);
    assert Drain(lib, FRESH, "") == Drained(Going(FRESH), "");
  }

  lemma RelayStep(secret: string, fed: string, emitted: string, pending: string, chunk: string, rest: string)
    requires Follows(secret, fed, emitted, pending)
    ensures var out := PushOut(secret, pending + chunk);
            && Follows(secret, fed + chunk, emitted + out, PushHeld(secret, pending + chunk))
            && Begins(emitted + out, fed + (chunk + rest), secret)
  {
    var out, held := PushOut(secret, pending + chunk), PushHeld(secret, pending + chunk);
    if !Feeds(MASK, secret) {
      PushKeepsStep(secret, fed, emitted, pending, chunk);
    }
    StepIsPrefix(secret, fed + chunk, emitted + out, held, rest);
    Assoc(fed, chunk, rest);
  }

  /** Push one chunk and write what comes out. */
  method RelayChunk(redactor: RelayStreamRedactor, writer: ResponseWriter, ghost fed: string, chunk: string,
                    ghost rest: string)
    returns (ok: bool)
    requires Follows(redactor.secret, fed, writer.relayed, redactor.pending) && !writer.broken
    modifies redactor, writer`relayed, writer`broken
    ensures ok <==> !writer.broken
    ensures ok ==> Follows(redactor.secret, fed + chunk, writer.relayed, redactor.pending)
    ensures Begins(writer.relayed, fed + (chunk + rest), redactor.secret)
  {
    hide Feeds, InStep, Redact;
    RelayStep(redactor.secret, fed, writer.relayed, redactor.pending, chunk, rest);
    var out := redactor.Push(chunk, false);
    ok := true;
    if |out| > 0 {
      ok := writer.Write(out);
    } else {
      EmptySides(writer.relayed);
    }
  }

  /** One non-empty read: limit, check, filter, write, limit again. */
  method RelayRead(redactor: RelayStreamRedactor, integrity: EventStreamIntegrity, writer: ResponseWriter,
                   ghost fed: string, data: string, ghost rest: string, written: int, maxBytes: int)
    returns (result: Result)
    requires Follows(redactor.secret, fed, writer.relayed, redactor.pending)
    requires Tracks(integrity.lib, fed, integrity.Abstract()) && written == |fed| && writer.errorEvents == 0
    requires !writer.broken
    modifies redactor, integrity, writer
    ensures Begins(writer.relayed, fed + (data + rest), redactor.secret)
    ensures (result == Relaying || result == WriteFailed || result == ErrorEventSent) &&
            (result == WriteFailed <==> writer.broken)
    ensures result == Relaying ==>
              Follows(redactor.secret, fed + data, writer.relayed, redactor.pending) &&
              Tracks(integrity.lib, fed + data, integrity.Abstract()) && |fed + data| < maxBytes
    ensures result == ErrorEventSent ==>
              |fed| + |data| >= maxBytes || Direct(integrity.lib, fed + (data + rest)) != Accepted
    ensures writer.errorEvents == if result == ErrorEventSent then 1 else 0
  {
    hide Follows, Begins, Tracks, Direct, PushStep;
    Assoc(fed, data, rest);
    StepIsPrefix(redactor.secret, fed, writer.relayed, redactor.pending, data + rest);
    var remaining := maxBytes - written;
    if |data| > remaining {
      if remaining > 0 {
        Joined(data, remaining);
        Assoc(data[..remaining], data[remaining..], rest);
        var ok := RelayChunk(redactor, writer, fed, data[..remaining], data[remaining..] + rest);
        if !ok {
          return WriteFailed;
        }
      }
      writer.WriteStreamError();
      return ErrorEventSent;
    }
    PushTracks(integrity.lib, fed, integrity.Abstract(), data);
    var err := integrity.Push(data);
    if err != Accepted {
      assert Direct(integrity.lib, fed + data + rest) == err;
      writer.WriteStreamError();
      return ErrorEventSent;
    }
    var ok := RelayChunk(redactor, writer, fed, data, rest);
    if !ok {
      return WriteFailed;
    }
    if written + |data| >= maxBytes {
      writer.WriteStreamError();
      return ErrorEventSent;
    }
    return Relaying;
  }

  /** The end of the source: closing check, then the flush of what is held back. */
  method RelayEnd(redactor: RelayStreamRedactor, integrity: EventStreamIntegrity, writer: ResponseWriter,
                  ghost fed: string)
    returns (result: Result)
    requires Follows(redactor.secret, fed, writer.relayed, redactor.pending)
    requires Tracks(integrity.lib, fed, integrity.Abstract()) && writer.errorEvents == 0 && !writer.broken
    modifies redactor, integrity, writer
    ensures Begins(writer.relayed, fed, redactor.secret)
    ensures result == Delivered && !Feeds(MASK, redactor.secret) ==> writer.relayed == Redact(fed, redactor.secret)
    ensures result == Delivered ==> fed != ""
    ensures (result == Delivered || result == WriteFailed || result == ErrorEventSent) &&
            (result == WriteFailed <==> writer.broken)
    ensures result != WriteFailed ==> (result == Delivered <==> Direct(integrity.lib, fed) == Accepted)
    ensures writer.errorEvents == if result == ErrorEventSent then 1 else 0
  {
    hide InStep, Feeds, Tracks, Redact, Direct;
    FinishTracks(integrity.lib, fed, integrity.Abstract());
    EmptyTextIncomplete(integrity.lib);
    FlushIsWhole(redactor.secret, fed, writer.relayed, redactor.pending);
    EmptySides(redactor.pending);
    var err := integrity.Finish();
    if err != Accepted {
      writer.WriteStreamError();
      return ErrorEventSent;
    }
    var tail := redactor.Push("", true);
    if |tail| > 0 {
      var ok := writer.Write(tail);
      if !ok {
        return WriteFailed;
      }
    } else {
      EmptySides(writer.relayed);
    }
    return Delivered;
  }

  /** Relays the source through the filter and the check, stopping at the first thing wrong. */
  method CopyStream(source: seq<Read>, lib: Library, apiKey: string, maxBytes: int, writer: ResponseWriter)
    returns (result: Result)
    requires writer.relayed == "" && writer.errorEvents == 0 && !writer.broken
    modifies writer
    ensures result != Relaying && (result == WriteFailed <==> writer.broken)
    ensures var text := Upstream(source, 0);
            result != WriteFailed ==>
              (result == Delivered <==> EndsCleanly(source, 0) && |text| < maxBytes && Complete(lib, text))
    ensures var text := Upstream(source, 0);
            !Feeds(MASK, apiKey) ==>
              writer.relayed <= Redact(text, apiKey) && (result == Delivered ==> writer.relayed == Redact(text, apiKey))
    ensures apiKey != "" && !Rebuilds(apiKey, MASK) ==> Index(writer.relayed, apiKey) < 0
    ensures writer.errorEvents == if result == ErrorEventSent then 1 else 0
  {
    hide InStep, Tracks, Redact, Direct, Feeds, Complete, Rebuilds;
    ghost var text := Upstream(source, 0);
    CompleteIsDirect(lib, text);
    var redactor := new RelayStreamRedactor(apiKey);
    var integrity := new EventStreamIntegrity(lib);
    var written := 0;
    var k := 0;
    ghost var fed := "";
    InStepAtStart(apiKey);
    TracksAtStart(lib);
    EmptySides(text);
    while true
      invariant k <= |source|
      invariant text == fed + Upstream(source, k) && (EndsCleanly(source, 0) <==> EndsCleanly(source, k))
      invariant written == |fed| && (fed == "" || written < maxBytes)
      invariant redactor.secret == apiKey && Follows(apiKey, fed, writer.relayed, redactor.pending)
      invariant integrity.lib == lib && Tracks(lib, fed, integrity.Abstract())
      invariant writer.errorEvents == 0 && !writer.broken
      decreases |source| + 1 - k
    {
      var read := ReadAt(source, k);
      ghost var rest := if read.end == More && k < |source| then Upstream(source, k + 1) else "";
      EmptySides(read.data);
      Assoc(fed, read.data, rest);
      if |read.data| > 0 {
        result := RelayRead(redactor, integrity, writer, fed, read.data, rest, written, maxBytes);
        if result != Relaying {
          RelayedAbsent(apiKey, writer.relayed, text);
          return;
        }
      } else {
        EmptySides(fed);
      }
      fed := fed + read.data;
      written := written + |read.data|;
      EmptySides(fed);
      if read.end == Eof {
        result := RelayEnd(redactor, integrity, writer, fed);
        RelayedAbsent(apiKey, writer.relayed, text);
        return;
      }
      StepIsPrefix(apiKey, fed, writer.relayed, redactor.pending, rest);
      if read.end == Fault {
        RelayedAbsent(apiKey, writer.relayed, text);
        writer.WriteStreamError();
        return ErrorEventSent;
      }
      k := k + 1;
    }
  }
}
