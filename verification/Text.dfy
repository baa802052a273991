/** Byte strings and the two library searches the handlers build on.  A `char` stands for one byte. */
module Text {

  /** Every leftmost, non-overlapping occurrence of `find` becomes `put`. */
  function ReplaceAll(text: string, find: string, put: string): string
    requires find != ""
    decreases |text|
  {
    if text == "" then ""
    else if find <= text then put + ReplaceAll(text[|find|..], find, put)
    else [text[0]] + ReplaceAll(text[1..], find, put)
  }

  /** `find` occurs in `text` at position `i`. */
  predicate OccursAt(text: string, find: string, i: int) {
    0 <= i && i + |find| <= |text| && text[i..i + |find|] == find
  }

  /** The position of the first occurrence of `find`, or -1. */
  function Index(text: string, find: string): (i: int)
    ensures i >= 0 ==> OccursAt(text, find, i)
    ensures forall j :: 0 <= j && (i < 0 || j < i) ==> !OccursAt(text, find, j)
    decreases |text|
  {
    if find <= text then 0
    else if text == "" then -1
    else
      var rest := Index(text[1..], find);
      var i := if rest < 0 then -1 else rest + 1;
      assert forall j {:trigger OccursAt(text, find, j)} :: 0 <= j && (i < 0 || j < i) ==> !OccursAt(text, find, j) by {
        forall j {:trigger OccursAt(text, find, j)} | 0 <= j && (i < 0 || j < i) ensures !OccursAt(text, find, j) {
          OccursBehind(text, find, j);
        }
      }
      OccursBehind(text, find, i);
      i
  }

  lemma OccursBehind(text: string, find: string, j: int)
    ensures 1 <= j && text != "" ==> (OccursAt(text, find, j) <==> OccursAt(text[1..], find, j - 1))
  {
  }

  function Concat(chunks: seq<string>): string {
    if chunks == [] then "" else chunks[0] + Concat(chunks[1..])
  }

  predicate IsSuffix(tail: string, text: string) {
    |tail| <= |text| && text[|text| - |tail|..] == tail
  }

  /** Text in front of the first occurrence is copied. */
  lemma {:induction false} ReplaceCopies(text: string, find: string, put: string, i: nat)
    requires find != "" && i <= |text|
    requires forall p :: 0 <= p < i ==> !OccursAt(text, find, p)
    ensures ReplaceAll(text, find, put) == text[..i] + ReplaceAll(text[i..], find, put)
    decreases i
  {
    if i == 0 {
      assert text[0..] == text && text[..0] == "";
    } else {
      var tail := text[1..];
      assert !OccursAt(text, find, 0);
      forall p | 0 <= p < i - 1 ensures !OccursAt(tail, find, p) {
        OccursBehind(text, find, p + 1);
      }
      ReplaceCopies(tail, find, put, i - 1);
      assert tail[i - 1..] == text[i..];
      Assoc([text[0]], tail[..i - 1], ReplaceAll(text[i..], find, put));
      assert [text[0]] + tail[..i - 1] == text[..i];
    }
  }

  /**
   * The scan is the repeated `Index` search of the library: cut at the first occurrence, replace it, go on behind it.
   */
  lemma ReplaceAllByIndex(text: string, find: string, put: string)
    requires find != ""
    ensures Index(text, find) < 0 ==> ReplaceAll(text, find, put) == text
    ensures Index(text, find) >= 0 ==>
              var i := Index(text, find);
              ReplaceAll(text, find, put) == text[..i] + put + ReplaceAll(text[i + |find|..], find, put)
  {
    var i := Index(text, find);
    if i < 0 {
      ReplaceCopies(text, find, put, |text|);
      assert text[|text|..] == "" && text[..|text|] == text;
    } else {
      ReplaceCopies(text, find, put, i);
      assert find <= text[i..];
      assert text[i..][|find|..] == text[i + |find|..];
    }
  }

  /** A text shorter than `find` is left alone. */
  lemma ReplaceShort(text: string, find: string, put: string)
    requires find != "" && |text| < |find|
    ensures ReplaceAll(text, find, put) == text
  {
  }

  /** `text` cut at `i` and joined again. */
  lemma Joined(text: string, i: nat)
    requires i <= |text|
    ensures text[..i] + text[i..] == text
  {
  }

  lemma Assoc(a: string, b: string, c: string)
    ensures a + b + c == a + (b + c)
  {
  }

  lemma EmptySides(text: string)
    ensures "" + text == text && text + "" == text
  {
  }

  lemma SliceOfSlice(text: string, from: nat, to: nat, lo: nat, hi: nat)
    requires from <= to <= |text| && lo <= hi <= to - from
    ensures text[from..to][lo..hi] == text[from + lo..from + hi]
  {
    var slice := text[from..to];
    assert forall k :: lo <= k < hi ==> slice[k] == text[from + k];
  }

  lemma {:induction false} ConcatAppend(chunks: seq<string>, last: string)
    ensures Concat(chunks + [last]) == Concat(chunks) + last
  {
    if chunks == [] {
      assert chunks + [last] == [last];
      assert Concat([last]) == last + Concat([last][1..]);
    } else {
      ConcatAppend(chunks[1..], last);
      assert (chunks + [last])[1..] == chunks[1..] + [last];
    }
  }
}
