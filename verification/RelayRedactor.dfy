/** The streaming secret filter of the custom relay: custom_proxy.go, `relayStreamRedactor`. */
module RelayRedactor {
  import opened Text

  const MASK := "[REDACTED]"

  /** `redactRelaySecret`: the one-shot form. */
  function Redact(text: string, secret: string): string {
    if secret == "" then text else ReplaceAll(text, secret, MASK)
  }

  /** The last `k` bytes of `data` are a proper prefix of the secret. */
  predicate Border(data: string, secret: string, k: int) {
    0 <= k <= |data| && k < |secret| && data[|data| - k..] == secret[..k]
  }

  ghost predicate LongestBorder(data: string, secret: string, k: int) {
    Border(data, secret, k) && forall j :: Border(data, secret, j) ==> j <= k
  }

  function KeepUpTo(data: string, secret: string, limit: nat): (k: nat)
    requires limit <= |data| && limit < |secret|
    ensures k <= limit && Border(data, secret, k)
    ensures forall j :: k < j <= limit ==> !Border(data, secret, j)
  {
    if Border(data, secret, limit) then limit else KeepUpTo(data, secret, limit - 1)
  }

  /** How many bytes of already replaced text are held back. */
  function Keep(data: string, secret: string): (k: nat)
    requires secret != ""
    ensures LongestBorder(data, secret, k)
  {
    KeepUpTo(data, secret, if |data| < |secret| - 1 then |data| else |secret| - 1)
  }

  /** The cut of replaced text into what goes out and what is held back. */
  function Out(replaced: string, secret: string): string
    requires secret != ""
  {
    replaced[..|replaced| - Keep(replaced, secret)]
  }

  function Held(replaced: string, secret: string): (held: string)
    requires secret != ""
    ensures |held| < |secret|
  {
    replaced[|replaced| - Keep(replaced, secret)..]
  }

  /** One non-final push on `data`, the held bytes followed by the new chunk. */
  function PushOut(secret: string, data: string): string {
    if secret == "" then data else Out(Redact(data, secret), secret)
  }

  function PushHeld(secret: string, data: string): string {
    if secret == "" then "" else Held(Redact(data, secret), secret)
  }

  /** The downward search for the longest border. */
  method PrefixSuffixLength(data: string, secret: string) returns (length: nat)
    requires secret != ""
    ensures LongestBorder(data, secret, length)
  {
    var limit := |secret| - 1;
    if |data| < limit {
      limit := |data|;
    }
    length := limit;
    while length > 0
      invariant length <= limit
      invariant forall j :: length < j <= limit ==> !Border(data, secret, j)
    {
      if data[|data| - length..] == secret[..length] {
        return;
      }
      length := length - 1;
    }
  }

  class RelayStreamRedactor {
    const secret: string
    var pending: string

    constructor (secret: string)
      ensures this.secret == secret && pending == ""
    {
      this.secret := secret;
      pending := "";
    }

    method Push(chunk: string, final: bool) returns (result: string)
      modifies this
      ensures final ==> result == Redact(old(pending) + chunk, secret) && pending == ""
      ensures !final ==>
                result == PushOut(secret, old(pending) + chunk) && pending == PushHeld(secret, old(pending) + chunk)
      ensures secret != "" ==> |pending| < |secret|
    {
      pending := pending + chunk;
      if secret == "" {
        result := pending;
        pending := "";
        return;
      }
      pending := ReplaceAll(pending, secret, MASK);
      if final {
        result := pending;
        pending := "";
        return;
      }
      var keep := PrefixSuffixLength(pending, secret);
      KeepIs(pending, secret, keep);
      var cut := |pending| - keep;
      result := pending[..cut];
      pending := pending[cut..];
    }
  }

  /** All output for a sequence of chunks, the final flush included. */
  function Stream(secret: string, pending: string, chunks: seq<string>): string
    decreases |chunks|
  {
    if chunks == [] then Redact(pending, secret)
    else
      var data := pending + chunks[0];
      PushOut(secret, data) + Stream(secret, PushHeld(secret, data), chunks[1..])
  }

  /** The end of an inserted mask can be taken for the beginning of the secret. */
  ghost predicate Feeds(mask: string, secret: string) {
    exists j :: 0 < j < |secret| && (IsSuffix(secret[..j], mask) || IsSuffix(mask, secret[..j]))
  }

  /** What went out so far, followed by what is held, stands for everything fed in, whatever comes next. */
  ghost predicate InStep(secret: string, fed: string, emitted: string, pending: string) {
    forall rest :: emitted + Redact(pending + rest, secret) == Redact(fed + rest, secret)
  }

  // ---------------------------------------------------------------- faithful secrets

  lemma KeepIs(data: string, secret: string, k: int)
    requires secret != "" && LongestBorder(data, secret, k)
    ensures Keep(data, secret) == k
  {
  }

  /** A border that reaches into the mask lets the mask feed the secret. */
  lemma BorderBehindMask(before: string, mask: string, behind: string, secret: string, k: int)
    requires Border(before + mask + behind, secret, k)
    ensures k <= |behind| || Feeds(mask, secret)
  {
    var j := k - |behind|;
    if 0 < j {
      var text := before + mask;
      assert text + behind == before + mask + behind;
      assert secret[..j] == text[|text| - j..] by {
        assert (text + behind)[|text| - j..][..j] == text[|text| - j..];
        assert secret[..k][..j] == secret[..j];
      }
      if j <= |mask| {
        assert IsSuffix(secret[..j], mask);
      } else {
        assert IsSuffix(mask, secret[..j]);
      }
    }
  }

  lemma {:induction false} ReplacedOrSame(text: string, secret: string, mask: string)
    returns (before: string, behind: string)
    requires secret != ""
    ensures ReplaceAll(text, secret, mask) == text || ReplaceAll(text, secret, mask) == before + mask + behind
    decreases |text|
  {
    before, behind := "", "";
    if text == "" {
    } else if secret <= text {
      behind := ReplaceAll(text[|secret|..], secret, mask);
      assert before + mask == mask;
    } else {
      var b;
      b, behind := ReplacedOrSame(text[1..], secret, mask);
      before := [text[0]] + b;
      Assoc([text[0]], b, mask);
      Assoc([text[0]], b + mask, behind);
    }
  }

  lemma BorderOfTail(front: string, tail: string, secret: string, j: int)
    requires j <= |tail|
    ensures Border(front + tail, secret, j) <==> Border(tail, secret, j)
  {
  }

  /** When no border reaches into `front`, the cut does not see it. */
  lemma CutOfTail(front: string, tail: string, secret: string)
    requires secret != ""
    requires forall j :: Border(front + tail, secret, j) ==> j <= |tail|
    ensures Out(front + tail, secret) == front + Out(tail, secret) && Held(front + tail, secret) == Held(tail, secret)
  {
    var text := front + tail;
    var k := Keep(tail, secret);
    BorderOfTail(front, tail, secret, k);
    forall j | Border(text, secret, j) ensures j <= k {
      BorderOfTail(front, tail, secret, j);
    }
    KeepIs(text, secret, k);
    assert text[..|text| - k] == front + tail[..|tail| - k];
    assert text[|text| - k..] == tail[|tail| - k..];
  }

  /** A match that `data` lacks and `data + rest` has at the front makes all of `data` a border. */
  lemma NoMatchYet(data: string, rest: string, secret: string, mask: string)
    requires secret != "" && !(secret <= data)
    requires !Border(ReplaceAll(data, secret, mask), secret, |ReplaceAll(data, secret, mask)|)
    ensures !(secret <= data + rest)
  {
    if secret <= data + rest {
      assert data == secret[..|data|] by {
        assert secret == (data + rest)[..|secret|];
      }
      ReplaceShort(data, secret, mask);
      assert false;
    }
  }

  /** The splitting equation of one push. */
  ghost predicate Splits(replaced: string, whole: string, rest: string, secret: string, mask: string)
    requires secret != ""
  {
    Out(replaced, secret) + ReplaceAll(Held(replaced, secret) + rest, secret, mask) == whole
  }

  lemma SplitsBehind(front: string, tail: string, whole: string, rest: string, secret: string, mask: string)
    requires secret != "" && Splits(tail, whole, rest, secret, mask)
    requires forall j :: Border(front + tail, secret, j) ==> j <= |tail|
    ensures Splits(front + tail, front + whole, rest, secret, mask)
  {
    CutOfTail(front, tail, secret);
    Assoc(front, Out(tail, secret), ReplaceAll(Held(tail, secret) + rest, secret, mask));
  }

  lemma SplitsWhenAllHeld(data: string, rest: string, secret: string, mask: string)
    requires secret != "" && mask != "" && !Feeds(mask, secret)
    requires var r := ReplaceAll(data, secret, mask); Border(r, secret, |r|)
    ensures Splits(ReplaceAll(data, secret, mask), ReplaceAll(data + rest, secret, mask), rest, secret, mask)
  {
    var r := ReplaceAll(data, secret, mask);
    var before, behind := ReplacedOrSame(data, secret, mask);
    if r != data {
      BorderBehindMask(before, mask, behind, secret, |r|);
      assert false;
    }
    KeepIs(r, secret, |r|);
    assert Out(r, secret) == "" && Held(r, secret) == data;
  }

  lemma NoBorderPastMask(mask: string, tail: string, secret: string)
    requires !Feeds(mask, secret)
    ensures forall j :: Border(mask + tail, secret, j) ==> j <= |tail|
  {
    assert "" + mask == mask;
    forall j | Border(mask + tail, secret, j) ensures j <= |tail| {
      BorderBehindMask("", mask, tail, secret, j);
    }
  }

  lemma ReplaceMatch(data: string, rest: string, find: string, put: string)
    requires find != "" && find <= data
    ensures ReplaceAll(data + rest, find, put) == put + ReplaceAll(data[|find|..] + rest, find, put)
  {
    assert find <= data + rest && (data + rest)[|find|..] == data[|find|..] + rest;
  }

  lemma ReplaceCopy(data: string, rest: string, find: string, put: string)
    requires find != "" && data != "" && !(find <= data + rest)
    ensures ReplaceAll(data + rest, find, put) == [data[0]] + ReplaceAll(data[1..] + rest, find, put)
  {
    assert (data + rest)[1..] == data[1..] + rest && (data + rest)[0] == data[0];
  }

  /** One push of `data` splits the replacement of every continuation of `data`. */
  lemma {:induction false} PushSplits(data: string, rest: string, secret: string, mask: string)
    requires secret != "" && mask != "" && !Feeds(mask, secret)
    ensures Splits(ReplaceAll(data, secret, mask), ReplaceAll(data + rest, secret, mask), rest, secret, mask)
    decreases |data|
  {
    var r := ReplaceAll(data, secret, mask);
    if Border(r, secret, |r|) {
      SplitsWhenAllHeld(data, rest, secret, mask);
    } else if secret <= data {
      var d := data[|secret|..];
      NoBorderPastMask(mask, ReplaceAll(d, secret, mask), secret);
      ReplaceMatch(data, rest, secret, mask);
      PushSplits(d, rest, secret, mask);
      SplitsBehind(mask, ReplaceAll(d, secret, mask), ReplaceAll(d + rest, secret, mask), rest, secret, mask);
    } else {
      var d := data[1..];
      NoMatchYet(data, rest, secret, mask);
      ReplaceCopy(data, rest, secret, mask);
      PushSplits(d, rest, secret, mask);
      SplitsBehind([data[0]], ReplaceAll(d, secret, mask), ReplaceAll(d + rest, secret, mask), rest, secret, mask);
    }
  }

  /** Pushing keeps the filter in step with everything fed in. */
  lemma PushKeepsStep(secret: string, fed: string, emitted: string, pending: string, chunk: string)
    requires !Feeds(MASK, secret) && InStep(secret, fed, emitted, pending)
    ensures InStep(secret, fed + chunk, emitted + PushOut(secret, pending + chunk), PushHeld(secret, pending + chunk))
  {
    var data := pending + chunk;
    var out, held := PushOut(secret, data), PushHeld(secret, data);
    forall rest ensures emitted + out + Redact(held + rest, secret) == Redact(fed + chunk + rest, secret) {
      assert emitted + Redact(pending + (chunk + rest), secret) == Redact(fed + (chunk + rest), secret);
      Assoc(pending, chunk, rest);
      Assoc(fed, chunk, rest);
      Assoc(emitted, out, Redact(held + rest, secret));
      if secret == "" {
        assert held + rest == rest;
      } else {
        PushSplits(data, rest, secret, MASK);
      }
    }
  }

  lemma {:induction false} StreamInStep(secret: string, fed: string, emitted: string, pending: string,
                                        chunks: seq<string>)
    requires !Feeds(MASK, secret) && InStep(secret, fed, emitted, pending)
    ensures emitted + Stream(secret, pending, chunks) == Redact(fed + Concat(chunks), secret)
    decreases |chunks|
  {
    if chunks == [] {
      assert pending + "" == pending;
    } else {
      var data := pending + chunks[0];
      var out, held := PushOut(secret, data), PushHeld(secret, data);
      PushKeepsStep(secret, fed, emitted, pending, chunks[0]);
      StreamInStep(secret, fed + chunks[0], emitted + out, held, chunks[1..]);
      Assoc(fed, chunks[0], Concat(chunks[1..]));
      Assoc(emitted, out, Stream(secret, held, chunks[1..]));
    }
  }

  lemma StreamIsRedaction(secret: string, chunks: seq<string>)
    requires !Feeds(MASK, secret)
    ensures Stream(secret, "", chunks) == Redact(Concat(chunks), secret)
  {
    InStepAtStart(secret);
    StreamInStep(secret, "", "", "", chunks);
    EmptySides(Concat(chunks));
    EmptySides(Stream(secret, "", chunks));
  }

  lemma InStepAtStart(secret: string)
    ensures InStep(secret, "", "", "")
  {
  }

  /** A secret without a closing bracket is never fed by a mask. */
  lemma BracketFreeIsFaithful(secret: string)
    requires ']' !in secret
    ensures !Feeds(MASK, secret)
  {
    forall j | 0 < j < |secret|
      ensures !IsSuffix(secret[..j], MASK) && !IsSuffix(MASK, secret[..j])
    {
      SuffixLast(secret[..j], MASK);
      SuffixLast(MASK, secret[..j]);
      assert secret[..j][j - 1] == secret[j - 1] && secret[j - 1] in secret;
    }
  }

  lemma SuffixLast(tail: string, text: string)
    requires tail != "" && text != ""
    ensures IsSuffix(tail, text) ==> tail[|tail| - 1] == text[|text| - 1]
  {
  }

  // ---------------------------------------------------------------- the other secrets

  lemma StreamOne(secret: string, held: string, chunk: string)
    requires secret != "" && held + chunk == secret
    ensures Stream(secret, held, [chunk]) == MASK
  {
    RedactSecret(secret);
    ReplaceShort(Held(MASK, secret), secret, MASK);
    Joined(MASK, |MASK| - Keep(MASK, secret));
    assert [chunk][1..] == [];
  }

  /** Output for two chunks when the second completes the secret from the held bytes of the first. */
  lemma TwoChunks(secret: string, first: string, second: string)
    requires secret != "" && PushHeld(secret, first) + second == secret
    ensures Stream(secret, "", [first, second]) == PushOut(secret, first) + MASK
  {
    EmptySides(first);
    StreamOne(secret, PushHeld(secret, first), second);
    assert [first, second][1..] == [second];
  }

  lemma RedactSecret(secret: string)
    requires secret != ""
    ensures Redact(secret, secret) == MASK
  {
    var rest := secret[|secret|..];
    assert rest == "" && ReplaceAll(rest, secret, MASK) == "";
    assert MASK + "" == MASK;
  }

  lemma ConcatTwo(first: string, second: string)
    ensures Concat([first, second]) == first + second
  {
    ConcatAppend([first], second);
    ConcatAppend([], first);
    assert [] + [first] == [first] && [first] + [second] == [first, second] && "" + first == first;
  }

  lemma RedactSecretAnd(secret: string, rest: string)
    requires |rest| < |secret|
    ensures Redact(secret + rest, secret) == MASK + rest
  {
    assert (secret + rest)[|secret|..] == rest && secret <= secret + rest;
    ReplaceShort(rest, secret, MASK);
  }

  lemma HeldOfMask(secret: string, k: nat)
    requires secret != "" && Redact(secret, secret) == MASK && k == Keep(MASK, secret) && k < |secret|
    ensures PushHeld(secret, secret) + secret[k..] == secret && PushOut(secret, secret) == MASK[..|MASK| - k]
  {
    hide Redact;
    Joined(secret, k);
  }

  /** A mask end that is a prefix of the secret: the secret itself, then its missing rest. */
  lemma MaskEndDiffers(secret: string, j: nat) returns (chunks: seq<string>)
    requires 0 < j < |secret| && IsSuffix(secret[..j], MASK)
    ensures Stream(secret, "", chunks) != Redact(Concat(chunks), secret)
  {
    hide Stream, ReplaceAll, Concat;
    RedactSecret(secret);
    assert Border(MASK, secret, j);
    var k := Keep(MASK, secret);
    var rest := secret[k..];
    chunks := [secret, rest];
    HeldOfMask(secret, k);
    TwoChunks(secret, secret, rest);
    ConcatTwo(secret, rest);
    RedactSecretAnd(secret, rest);
    UnborderedMask(k, rest);
  }

  /** The mask has no border of its own. */
  lemma UnborderedMask(k: nat, rest: string)
    requires 0 < k <= |MASK| && rest != ""
    ensures MASK[..|MASK| - k] + MASK != MASK + rest
  {
    if k < |MASK| {
      var at := |MASK| - k;
      assert (MASK[..at] + MASK)[at] == '[' && (MASK + rest)[at] == MASK[at];
      assert MASK[at] != '[';
    } else {
      assert |MASK[..|MASK| - k] + MASK| != |MASK + rest|;
    }
  }

  lemma NotInsideFront(secret: string, mask: string, i: nat, text: string, p: nat)
    requires p < i && OccursAt(secret, mask, i) && !OccursAt(secret, mask, p)
    requires i + |secret| <= |text| && text[i..i + |secret|] == secret
    ensures !OccursAt(text, secret, p)
  {
    SliceOfSlice(text, p, p + |secret|, i, i + |mask|);
    SliceOfSlice(text, i, i + |secret|, p, p + |mask|);
  }

  /** Behind its own first `i` bytes the secret is found, and not earlier. */
  ghost predicate FirstBehindFront(secret: string, i: nat)
    requires i <= |secret|
  {
    forall p :: 0 <= p < i ==> !OccursAt(secret[..i] + secret, secret, p)
  }

  /** The front is copied and the secret behind it replaced, whatever shorter text follows. */
  lemma FrontCopied(secret: string, mask: string, i: nat, behind: string)
    requires i < |secret| && FirstBehindFront(secret, i) && |behind| < |secret|
    ensures ReplaceAll(secret[..i] + secret + behind, secret, mask) == secret[..i] + mask + behind
  {
    var front, tail := secret[..i], secret + behind;
    var text := front + tail;
    Assoc(front, secret, behind);
    forall p | 0 <= p < i ensures !OccursAt(text, secret, p) {
      assert !OccursAt(front + secret, secret, p);
      assert text[..i + |secret|] == front + secret;
      SliceOfSlice(text, 0, i + |secret|, p, p + |secret|);
    }
    ReplaceCopies(text, secret, mask, i);
    assert text[i..] == tail && text[..i] == front;
    assert tail[|secret|..] == behind && secret <= tail;
    ReplaceShort(behind, secret, mask);
    Assoc(front, mask, behind);
  }

  /**
   * With the mask first found at `i > 0` in the secret, the secret matches behind its own first `i` bytes and not
   * earlier.
   */
  lemma SecretBehindFront(secret: string, mask: string, i: nat)
    requires 0 < i && i + |mask| < |secret| && i == Index(secret, mask)
    ensures FirstBehindFront(secret, i)
  {
    var text := secret[..i] + secret;
    assert text[i..i + |secret|] == secret;
    assert OccursAt(secret, mask, i);
    forall p | 0 <= p < i ensures !OccursAt(text, secret, p) {
      assert !OccursAt(secret, mask, p);
      NotInsideFront(secret, mask, i, text, p);
    }
  }

  /** The front of the secret up to the end of its first mask is held back whole. */
  lemma FrontHeld(secret: string, mask: string, i: nat)
    requires i + |mask| < |secret| && i == Index(secret, mask)
    ensures var r := secret[..i] + mask; Out(r, secret) == "" && Held(r, secret) == secret[..i + |mask|]
  {
    assert OccursAt(secret, mask, i);
    SliceOfSlice(secret, 0, i + |mask|, i, i + |mask|);
    Joined(secret[..i + |mask|], i);
    var r := secret[..i + |mask|];
    assert r[..i] == secret[..i];
    assert Border(r, secret, |r|);
    KeepIs(r, secret, |r|);
  }

  /** A whole mask inside the secret: the text in front of it and the secret, then the text behind it. */
  lemma InnerMaskDiffers(secret: string, i: nat) returns (chunks: seq<string>)
    requires 0 < i && i + |MASK| < |secret| && i == Index(secret, MASK)
    ensures Stream(secret, "", chunks) != Redact(Concat(chunks), secret)
  {
    var front, behind := secret[..i], secret[i + |MASK|..];
    var first := front + secret;
    chunks := [first, behind];
    ConcatTwo(first, behind);
    SecretBehindFront(secret, MASK, i);
    FrontCopied(secret, MASK, i, "");
    FrontCopied(secret, MASK, i, behind);
    EmptySides(first);
    EmptySides(front + MASK);
    FrontHeld(secret, MASK, i);
    Joined(secret, i + |MASK|);
    TwoChunks(secret, first, behind);
    assert |Redact(first + behind, secret)| == |front| + |MASK| + |behind|;
  }

  lemma InnerMask(secret: string, j: nat)
    requires j < |secret| && IsSuffix(MASK, secret[..j])
    ensures 0 <= Index(secret, MASK) && Index(secret, MASK) + |MASK| < |secret|
  {
    var at := j - |MASK|;
    assert secret[..j][at..] == secret[at..at + |MASK|];
    assert OccursAt(secret, MASK, at);
  }

  lemma FedSecretDiffers(secret: string) returns (chunks: seq<string>)
    requires Feeds(MASK, secret)
    ensures Stream(secret, "", chunks) != Redact(Concat(chunks), secret)
  {
    var j :| 0 < j < |secret| && (IsSuffix(secret[..j], MASK) || IsSuffix(MASK, secret[..j]));
    if IsSuffix(secret[..j], MASK) {
      chunks := MaskEndDiffers(secret, j);
    } else {
      InnerMask(secret, j);
      var i := Index(secret, MASK);
      if i == 0 {
        assert secret[..|MASK|] == MASK[|MASK| - |MASK|..];
        chunks := MaskEndDiffers(secret, |MASK|);
      } else {
        chunks := InnerMaskDiffers(secret, i);
      }
    }
  }

  /** Streaming equals the one-shot redaction for every cutting exactly when no mask feeds the secret. */
  lemma FaithfulExactlyWhenNotFed(secret: string)
    ensures (forall chunks :: Stream(secret, "", chunks) == Redact(Concat(chunks), secret)) <==> !Feeds(MASK, secret)
  {
    if Feeds(MASK, secret) {
      var chunks := FedSecretDiffers(secret);
    } else {
      forall chunks ensures Stream(secret, "", chunks) == Redact(Concat(chunks), secret) {
        StreamIsRedaction(secret, chunks);
      }
    }
  }

  // ---------------------------------------------------------------- when the secret is absent from the output

  /** One of the two texts begins the other. */
  predicate Meets(a: string, b: string) {
    a <= b || b <= a
  }

  /** The secret can be read inside a mask, or from inside it on. */
  ghost predicate FromMask(secret: string, mask: string) {
    exists d :: 0 <= d < |mask| && Meets(secret, mask[d..])
  }

  /** The secret can be read from copied text into the mask that stands for the next match. */
  ghost predicate IntoMask(secret: string, mask: string) {
    exists i :: 0 < i < |secret| && FirstBehindFront(secret, i) && Meets(secret[i..], mask)
  }

  /** Replacing the secret can build it anew. */
  ghost predicate Rebuilds(secret: string, mask: string) {
    FromMask(secret, mask) || IntoMask(secret, mask)
  }

  lemma SecretStartsInMask(mask: string, tail: string, secret: string, p: nat)
    requires OccursAt(mask + tail, secret, p)
    ensures p < |mask| ==> FromMask(secret, mask)
    ensures p >= |mask| ==> OccursAt(tail, secret, p - |mask|)
  {
    var text := mask + tail;
    if p < |mask| {
      assert text[p..] == mask[p..] + tail && secret == text[p..][..|secret|];
      assert Meets(secret, mask[p..]);
    } else {
      assert text[p..p + |secret|] == tail[p - |mask|..p - |mask| + |secret|];
    }
  }

  lemma PrefixCut(secret: string, front: string, tail: string)
    requires secret <= front + tail
    ensures if |secret| <= |front| then secret <= front else secret[..|front|] == front && secret[|front|..] <= tail
  {
    var text := front + tail;
    assert secret == text[..|secret|];
    if |secret| > |front| {
      assert secret[|front|..] == text[|front|..][..|secret| - |front|];
    }
  }

  /** A secret that the output starts with and the text does not. */
  lemma SecretStartsInCopy(text: string, secret: string, mask: string)
    requires secret != "" && secret <= ReplaceAll(text, secret, mask) && !(secret <= text)
    ensures IntoMask(secret, mask)
  {
    hide ReplaceAll, FirstBehindFront, Index, Meets;
    var i := Index(text, secret);
    ReplaceAllByIndex(text, secret, mask);
    assert i > 0;
    var rest := ReplaceAll(text[i + |secret|..], secret, mask);
    Assoc(text[..i], mask, rest);
    PrefixCut(secret, text[..i], mask + rest);
    FrontIsFirst(text, secret, i);
    PrefixesMeet(secret[i..], mask, rest);
  }

  lemma PrefixesMeet(a: string, b: string, rest: string)
    requires a <= b + rest
    ensures Meets(a, b)
  {
    if |a| <= |b| {
      assert a == (b + rest)[..|a|] == b[..|a|];
    } else {
      assert b == (b + rest)[..|a|][..|b|];
    }
  }

  lemma FrontIsFirst(text: string, secret: string, i: nat)
    requires i == Index(text, secret) && i < |secret| && secret[..i] == text[..i]
    ensures FirstBehindFront(secret, i)
  {
    assert OccursAt(text, secret, i);
    var n := i + |secret|;
    Joined(text[..n], i);
    assert text[..n][..i] == text[..i];
    SliceOfSlice(text, 0, n, i, n);
    assert text[..n] == secret[..i] + secret;
    forall p | 0 <= p < i ensures !OccursAt(secret[..i] + secret, secret, p) {
      assert !OccursAt(text, secret, p);
      SliceOfSlice(text, 0, n, p, p + |secret|);
    }
  }

  /** Wherever the output holds the secret, the mask took part. */
  lemma {:induction false} FoundIsRebuilt(text: string, secret: string, mask: string, p: nat)
    requires secret != "" && OccursAt(ReplaceAll(text, secret, mask), secret, p)
    ensures Rebuilds(secret, mask)
    decreases |text|
  {
    hide FromMask, IntoMask;
    var r := ReplaceAll(text, secret, mask);
    if secret <= text {
      var tail := ReplaceAll(text[|secret|..], secret, mask);
      SecretStartsInMask(mask, tail, secret, p);
      if p >= |mask| {
        FoundIsRebuilt(text[|secret|..], secret, mask, p - |mask|);
      }
    } else if p == 0 {
      assert secret <= r;
      SecretStartsInCopy(text, secret, mask);
    } else {
      OccursBehind(r, secret, p);
      assert r[1..] == ReplaceAll(text[1..], secret, mask);
      FoundIsRebuilt(text[1..], secret, mask, p - 1);
    }
  }

  lemma ReadFromMask(secret: string, mask: string, d: nat, rest: string)
    requires d < |mask| && (if secret <= mask[d..] then rest == "" else secret == mask[d..] + rest)
    ensures OccursAt(mask + rest, secret, d)
  {
    var r := mask + rest;
    assert r[d..] == mask[d..] + rest;
    assert r[d..d + |secret|] == r[d..][..|secret|];
  }

  /** A text whose redaction holds the secret. */
  lemma RebuiltFromMask(secret: string, mask: string, d: nat) returns (text: string)
    requires secret != "" && d < |mask| && Meets(secret, mask[d..])
    ensures OccursAt(ReplaceAll(text, secret, mask), secret, d)
  {
    hide OccursAt;
    var rest := if secret <= mask[d..] then "" else secret[|mask[d..]|..];
    text := secret + rest;
    assert text[|secret|..] == rest && secret <= text;
    ReplaceShort(rest, secret, mask);
    assert ReplaceAll(text, secret, mask) == mask + rest;
    ReadFromMask(secret, mask, d, rest);
  }

  lemma RebuiltIntoMask(secret: string, mask: string, i: nat) returns (text: string)
    requires 0 < i < |secret| && mask != "" && FirstBehindFront(secret, i) && Meets(secret[i..], mask)
    ensures OccursAt(ReplaceAll(text, secret, mask), secret, 0)
  {
    var rest := if secret[i..] <= mask then "" else secret[i..][|mask|..];
    text := secret[..i] + secret + rest;
    FrontCopied(secret, mask, i, rest);
    Assoc(secret[..i], mask, rest);
    assert secret[i..] <= mask + rest;
    Joined(secret, i);
    assert secret <= secret[..i] + (mask + rest);
  }

  /** The secret is absent from every redaction exactly when replacing it cannot build it anew. */
  lemma AbsentExactlyWhenNotRebuilt(secret: string)
    requires secret != ""
    ensures (forall text :: Index(Redact(text, secret), secret) < 0) <==> !Rebuilds(secret, MASK)
  {
    hide FirstBehindFront;
    if Rebuilds(secret, MASK) {
      var text;
      if FromMask(secret, MASK) {
        var d :| 0 <= d < |MASK| && Meets(secret, MASK[d..]);
        text := RebuiltFromMask(secret, MASK, d);
      } else {
        var i :| 0 < i < |secret| && FirstBehindFront(secret, i) && Meets(secret[i..], MASK);
        text := RebuiltIntoMask(secret, MASK, i);
      }
      assert Index(Redact(text, secret), secret) >= 0;
    } else {
      forall text ensures Index(Redact(text, secret), secret) < 0 {
        if Index(Redact(text, secret), secret) >= 0 {
          FoundIsRebuilt(text, secret, MASK, Index(Redact(text, secret), secret));
        }
      }
    }
  }

  lemma MetByMaskEnd(secret: string, d: nat)
    requires d < |MASK| && Meets(secret, MASK[d..])
    ensures OccursAt(MASK, secret, d) || ']' in secret
  {
    var tail := MASK[d..];
    if tail <= secret {
      assert secret[|tail| - 1] == tail[|tail| - 1] == ']';
    }
  }

  lemma NotMetFromInside(secret: string)
    requires ']' !in secret && Index(MASK, secret) < 0
    ensures !FromMask(secret, MASK)
  {
    forall d | 0 <= d < |MASK| ensures !Meets(secret, MASK[d..]) {
      if Meets(secret, MASK[d..]) {
        MetByMaskEnd(secret, d);
      }
    }
  }

  lemma NotMetAhead(secret: string)
    requires '[' !in secret
    ensures !IntoMask(secret, MASK)
  {
    hide FirstBehindFront;
    forall i | 0 < i < |secret| ensures !Meets(secret[i..], MASK) {
      assert secret[i..][0] == secret[i];
    }
  }

  /** A secret without brackets that the mask does not spell is never built anew. */
  lemma BracketFreeNotRebuilt(secret: string)
    requires '[' !in secret && ']' !in secret && Index(MASK, secret) < 0
    ensures !Rebuilds(secret, MASK)
  {
    NotMetFromInside(secret);
    NotMetAhead(secret);
  }

  lemma InnerMaskIsRebuilt(secret: string, i: nat)
    requires i + |MASK| < |secret| && i == Index(secret, MASK)
    ensures Rebuilds(secret, MASK)
  {
    hide FirstBehindFront;
    assert MASK <= secret[i..];
    if i == 0 {
      assert Meets(secret, MASK[0..]);
    } else {
      SecretBehindFront(secret, MASK, i);
      assert Meets(secret[i..], MASK);
    }
  }

  /** A mask end that feeds the secret is one it can be read from, an inner mask one it can be read into. */
  lemma FedIsRebuilt(secret: string)
    requires Feeds(MASK, secret)
    ensures Rebuilds(secret, MASK)
  {
    hide IntoMask;
    var j :| 0 < j < |secret| && (IsSuffix(secret[..j], MASK) || IsSuffix(MASK, secret[..j]));
    if IsSuffix(secret[..j], MASK) {
      assert Meets(secret, MASK[|MASK| - j..]);
    } else {
      InnerMask(secret, j);
      InnerMaskIsRebuilt(secret, Index(secret, MASK));
    }
  }

  lemma OneChunk(secret: string, text: string)
    ensures Stream(secret, "", [text]) == Redact(text, secret)
  {
    EmptySides(text);
    assert [text][1..] == [];
    if secret == "" {
      EmptySides(text);
    } else {
      var replaced := Redact(text, secret);
      ReplaceShort(Held(replaced, secret), secret, MASK);
      Joined(replaced, |replaced| - Keep(replaced, secret));
    }
  }

  /**
   * The secret is in nothing that is sent, however the stream is cut, exactly when replacing it cannot build it anew.
   */
  lemma NeverSentExactly(secret: string)
    requires secret != ""
    ensures (forall chunks :: Index(Stream(secret, "", chunks), secret) < 0) <==> !Rebuilds(secret, MASK)
  {
    hide Rebuilds, Feeds, Redact, Stream;
    AbsentExactlyWhenNotRebuilt(secret);
    if Rebuilds(secret, MASK) {
      var text :| Index(Redact(text, secret), secret) >= 0;
      OneChunk(secret, text);
      assert Index(Stream(secret, "", [text]), secret) >= 0;
    } else {
      if Feeds(MASK, secret) {
        FedIsRebuilt(secret);
      }
      forall chunks ensures Index(Stream(secret, "", chunks), secret) < 0 {
        StreamIsRedaction(secret, chunks);
      }
    }
  }
}
