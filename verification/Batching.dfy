/** Splitting embedding inputs into requests under two limits. */
module Batching {
  import opened Wrappers
  import opened AsciiJson

  const MAX_INPUT_BYTES := 30_000
  const MAX_BATCH_BYTES := 100_000
  const MAX_BATCH_ITEMS := 128

  datatype BatchError = TooLong(bytes: nat)

  type Batch = seq<Text>

  predicate HighSurrogate(u: CodeUnit) {
    0xd800 <= u <= 0xdbff
  }

  predicate LowSurrogate(u: CodeUnit) {
    0xdc00 <= u <= 0xdfff
  }

  /** The length in UTF-8: four bytes for a surrogate pair and three, the
      replacement character's, for a surrogate that stands alone. */
  function Utf8Length(t: Text): nat
    decreases |t|
  {
    if t == [] then 0
    else if |t| >= 2 && HighSurrogate(t[0]) && LowSurrogate(t[1]) then 4 + Utf8Length(t[2..])
    else (if t[0] <= 0x7f then 1 else if t[0] <= 0x7ff then 2 else 3) + Utf8Length(t[1..])
  }

  function Bytes(batch: Batch): nat {
    if batch == [] then 0 else Utf8Length(batch[0]) + Bytes(batch[1..])
  }

  function Flat(batches: seq<Batch>): Batch {
    if batches == [] then [] else batches[0] + Flat(batches[1..])
  }

  // ----- what a good partition is -----

  predicate Fits(batch: Batch) {
    |batch| <= MAX_BATCH_ITEMS && Bytes(batch) <= MAX_BATCH_BYTES
  }

  predicate AllFit(batches: seq<Batch>) {
    forall k :: 0 <= k < |batches| ==> Fits(batches[k])
  }

  predicate NoneEmpty(batches: seq<Batch>) {
    forall k :: 0 <= k < |batches| ==> batches[k] != []
  }

  /** A batch that takes in the first text of the next one is over a limit. */
  predicate Full(batch: Batch, next: Batch) {
    next != [] ==> !Fits(batch + [next[0]])
  }

  predicate EachFull(batches: seq<Batch>) {
    forall k :: 0 <= k < |batches| - 1 ==> Full(batches[k], batches[k + 1])
  }

  predicate InputOk(t: Text) {
    Utf8Length(t) <= MAX_INPUT_BYTES
  }

  predicate InputsOk(texts: Batch) {
    forall i :: 0 <= i < |texts| ==> InputOk(texts[i])
  }

  // ----- bytes and concatenation -----

  lemma {:induction false} BytesAdd(a: Batch, b: Batch)
    ensures Bytes(a + b) == Bytes(a) + Bytes(b)
  {
    if a == [] {
      assert a + b == b;
    } else {
      BytesAdd(a[1..], b);
      assert (a + b)[1..] == a[1..] + b;
    }
  }

  lemma {:induction false} FlatSnoc(batches: seq<Batch>, last: Batch)
    ensures Flat(batches + [last]) == Flat(batches) + last
  {
    if batches == [] {
      assert [last][1..] == [];
    } else {
      FlatSnoc(batches[1..], last);
      assert (batches + [last])[1..] == batches[1..] + [last];
    }
  }

  /** What fits still fits with texts taken from its front and its back. */
  lemma PartFits(front: Batch, part: Batch, back: Batch)
    requires Fits(front + part + back)
    ensures Fits(part)
  {
    BytesAdd(front + part, back);
    BytesAdd(front, part);
  }

  // ----- the fewest batches -----

  /** Whoever goes further than the first greedy batch is over a limit. */
  lemma GoingFurther(greedy: seq<Batch>, ahead: Batch, first: Batch, rest: Batch)
    requires greedy != [] && NoneEmpty(greedy) && EachFull(greedy)
    requires first + rest == ahead + Flat(greedy) && |Flat(greedy[1..])| > |rest|
    ensures !Fits(first)
  {
    var done, left := greedy[0], Flat(greedy[1..]);
    var n := |left| - |rest|;
    assert greedy[1..] != [];
    var next := greedy[1];
    assert Full(greedy[0], next) && left == next + Flat(greedy[2..]) by {
      assert greedy[1..][0] == next && greedy[1..][1..] == greedy[2..];
    }
    hide EachFull, NoneEmpty, Fits, Bytes;
    assert ahead + Flat(greedy) == ahead + done + left;
    FirstCovers(ahead, done, left, first, rest);
    assert left[..n] == [next[0]] + left[1..n];
    assert first == ahead + (done + [next[0]]) + left[1..n];
    if Fits(first) { PartFits(ahead, done + [next[0]], left[1..n]); }
  }

  /** If greedy batches hold no more than the end of what other batches hold,
      there are no more of them. */
  lemma {:induction false} StaysAhead(greedy: seq<Batch>, other: seq<Batch>, ahead: Batch)
    requires NoneEmpty(greedy) && EachFull(greedy) && AllFit(other)
    requires Flat(other) == ahead + Flat(greedy)
    ensures |greedy| <= |other|
    decreases |other|
  {
    if greedy != [] && other != [] {
      var first, rest := other[0], Flat(other[1..]);
      var done, left := greedy[0], Flat(greedy[1..]);
      if |left| > |rest| {
        GoingFurther(greedy, ahead, first, rest);
      } else {
        assert first + rest == ahead + done + left;
        RestCovers(ahead + done, left, first, rest);
        TailIsGreedy(greedy);
        StaysAhead(greedy[1..], other[1..], rest[..|rest| - |left|]);
      }
    }
  }

  lemma FirstCovers(ahead: Batch, done: Batch, left: Batch, first: Batch, rest: Batch)
    requires first + rest == ahead + done + left && |left| > |rest|
    ensures first == ahead + done + left[..|left| - |rest|]
  {
    var n := |left| - |rest|;
    assert ahead + done + left == (ahead + done + left[..n]) + left[n..];
    assert first == (first + rest)[..|first|];
  }

  lemma RestCovers(front: Batch, left: Batch, first: Batch, rest: Batch)
    requires first + rest == front + left && |left| <= |rest|
    ensures rest == rest[..|rest| - |left|] + left
  {
    assert left == (front + left)[|front|..] == (first + rest)[|front|..];
    assert (first + rest)[|front|..] == rest[|front| - |first|..];
  }

  /** No partition of the same texts in the same order within the limits has
      fewer batches than a greedy one. */
  lemma GreedyIsMinimal(greedy: seq<Batch>, other: seq<Batch>)
    requires NoneEmpty(greedy) && EachFull(greedy)
    requires AllFit(other) && Flat(other) == Flat(greedy)
    ensures |greedy| <= |other|
  {
    assert Flat(other) == [] + Flat(greedy);
    StaysAhead(greedy, other, []);
  }

  /** Greedy batches within the limits are determined by the texts. */
  lemma {:induction false} GreedyIsUnique(a: seq<Batch>, b: seq<Batch>)
    requires NoneEmpty(a) && EachFull(a) && AllFit(a)
    requires NoneEmpty(b) && EachFull(b) && AllFit(b)
    requires Flat(a) == Flat(b)
    ensures a == b
  {
    if a != [] && b != [] {
      if |a[0]| < |b[0]| {
        FirstIsNotShorter(a, b);
      } else if |b[0]| < |a[0]| {
        FirstIsNotShorter(b, a);
      } else {
        assert a[0] == Flat(a)[..|a[0]|] == Flat(b)[..|b[0]|] == b[0];
        assert Flat(a[1..]) == Flat(a)[|a[0]|..] == Flat(b)[|b[0]|..] == Flat(b[1..]);
        TailIsGreedy(a);
        TailIsGreedy(b);
        GreedyIsUnique(a[1..], b[1..]);
        assert a == [a[0]] + a[1..] && b == [b[0]] + b[1..];
      }
    }
  }

  lemma TailIsGreedy(a: seq<Batch>)
    requires a != [] && NoneEmpty(a) && EachFull(a)
    ensures NoneEmpty(a[1..]) && EachFull(a[1..])
  {
    forall k | 0 <= k < |a[1..]| - 1 ensures Full(a[1..][k], a[1..][k + 1]) {
      assert Full(a[k + 1], a[k + 2]);
    }
  }

  lemma FirstIsNotShorter(a: seq<Batch>, b: seq<Batch>)
    requires a != [] && b != [] && NoneEmpty(a) && EachFull(a) && AllFit(b) && Flat(a) == Flat(b)
    ensures |a[0]| >= |b[0]|
  {
    if |a[0]| < |b[0]| {
      assert b[0] + Flat(b[1..]) == [] + Flat(a);
      GoingFurther(a, [], b[0], Flat(b[1..]));
    }
  }

  // ----- the partition as it runs -----

  /** The closed batches and the open one, after the texts so far. */
  ghost predicate Greedy(batches: seq<Batch>, batch: Batch, texts: Batch) {
    && Flat(batches) + batch == texts
    && Fits(batch) && AllFit(batches) && NoneEmpty(batches) && EachFull(batches)
    && (texts != [] ==> batch != [])
    && (batches != [] ==> Full(batches[|batches| - 1], batch))
  }

  lemma Grows(batches: seq<Batch>, batch: Batch, texts: Batch, text: Text)
    requires Greedy(batches, batch, texts) && Fits(batch + [text])
    ensures Greedy(batches, batch + [text], texts + [text])
  {
    assert Flat(batches) + (batch + [text]) == (Flat(batches) + batch) + [text];
    if batch == [] && batches != [] { FlatOfFull(batches); }
  }

  lemma FlatOfFull(batches: seq<Batch>)
    requires NoneEmpty(batches) && batches != []
    ensures Flat(batches) != []
  {
    assert batches[0] != [];
  }

  lemma Closes(batches: seq<Batch>, batch: Batch, texts: Batch, text: Text)
    requires Greedy(batches, batch, texts) && batch != [] && !Fits(batch + [text]) && Fits([text])
    ensures Greedy(batches + [batch], [text], texts + [text])
  {
    FlatSnoc(batches, batch);
    hide Fits, Flat;
  }

  lemma Finishes(batches: seq<Batch>, batch: Batch, texts: Batch)
    requires Greedy(batches, batch, texts)
    ensures var all := if batch == [] then batches else batches + [batch];
      Flat(all) == texts && NoneEmpty(all) && AllFit(all) && EachFull(all)
  {
    FlatSnoc(batches, batch);
    hide Fits, Flat;
  }

  lemma BytesOfOne(t: Text)
    ensures Bytes([t]) == Utf8Length(t)
  {
  }

  method PartitionEmbeddingInputs(texts: Batch) returns (r: Result<seq<Batch>, BatchError>)
    ensures r.Ok? <==> InputsOk(texts)
    ensures r.Err? ==> exists i :: 0 <= i < |texts| && InputsOk(texts[..i]) && !InputOk(texts[i])
                                && r.error == TooLong(Utf8Length(texts[i]))
    ensures r.Ok? ==> Flat(r.value) == texts && NoneEmpty(r.value) && AllFit(r.value) && EachFull(r.value)
    ensures r.Ok? ==> forall other: seq<Batch> :: AllFit(other) && Flat(other) == texts ==> |r.value| <= |other|
  {
    var batches: seq<Batch> := [];
    var batch: Batch := [];
    var batchBytes := 0;
    for i := 0 to |texts|
      invariant Greedy(batches, batch, texts[..i])
      invariant batchBytes == Bytes(batch)
      invariant InputsOk(texts[..i])
    {
      var text := texts[i];
      var textBytes := Utf8Length(text);
      if textBytes > MAX_INPUT_BYTES {
        assert !InputOk(texts[i]);
        return Err(TooLong(textBytes));
      }
      BytesOfOne(text);
      BytesAdd(batch, [text]);
      assert Fits(batch + [text]) == (|batch| < MAX_BATCH_ITEMS && batchBytes + textBytes <= MAX_BATCH_BYTES);
      assert Fits([text]) && (batch == [] ==> batch + [text] == [text]);
      assert texts[..i + 1] == texts[..i] + [text];
      hide Bytes, Utf8Length, Greedy, Fits;
      if |batch| > 0 && (|batch| >= MAX_BATCH_ITEMS || batchBytes + textBytes > MAX_BATCH_BYTES) {
        Closes(batches, batch, texts[..i], text);
        batches := batches + [batch];
        batch := [];
        batchBytes := 0;
        assert batch + [text] == [text];
      } else {
        Grows(batches, batch, texts[..i], text);
      }
      batch := batch + [text];
      batchBytes := batchBytes + textBytes;
    }
    assert texts[..|texts|] == texts;
    hide Greedy, Fits, Flat, Bytes;
    Finishes(batches, batch, texts);
    if |batch| > 0 {
      batches := batches + [batch];
    }
    forall other: seq<Batch> | AllFit(other) && Flat(other) == texts ensures |batches| <= |other| {
      GreedyIsMinimal(batches, other);
    }
    r := Ok(batches);
  }
}
