/** Translating texts in batches small enough for one request, and as few of them as possible. */
module DeepL {
  import opened Wrappers

  const BATCH_TEXTS := 50
  const BATCH_BYTES := 100_000

  /** A text with its size in the request, which is never zero: it is quoted. */
  datatype Text = Text(text: string, bytes: nat)

  function Bytes(batch: seq<Text>): nat {
    if batch == [] then 0 else Bytes(batch[..|batch| - 1]) + batch[|batch| - 1].bytes
  }

  /** A batch the service takes, or one text on its own however large it is. */
  ghost predicate Fits(batch: seq<Text>) {
    |batch| == 1 || (1 < |batch| <= BATCH_TEXTS && Bytes(batch) <= BATCH_BYTES)
  }

  function Flat(batches: seq<seq<Text>>): seq<Text> {
    if batches == [] then [] else batches[0] + Flat(batches[1..])
  }

  /** A division of the texts, in order, into batches that fit. */
  ghost predicate Cut(batches: seq<seq<Text>>, texts: seq<Text>) {
    Flat(batches) == texts && forall i :: 0 <= i < |batches| ==> Fits(batches[i])
  }

  /** Each batch is closed only when the next text would not have fitted in it. */
  ghost predicate Greedy(batches: seq<seq<Text>>) {
    forall i :: 0 < i < |batches| ==> batches[i] != [] && !Fits(batches[i - 1] + [batches[i][0]])
  }

  lemma {:induction false} FlatAppend(batches: seq<seq<Text>>, batch: seq<Text>)
    ensures Flat(batches + [batch]) == Flat(batches) + batch
  {
    if batches == [] {
      assert [batch][1..] == [] && Flat([batch]) == batch + Flat([]);
    } else {
      FlatAppend(batches[1..], batch);
      assert (batches + [batch])[1..] == batches[1..] + [batch];
    }
  }

  lemma BytesAppend(batch: seq<Text>, text: Text)
    ensures Bytes(batch + [text]) == Bytes(batch) + text.bytes
  {
    assert (batch + [text])[..|batch|] == batch;
  }

  lemma GrowingStaysGreedy(batches: seq<seq<Text>>, batch: seq<Text>, text: Text)
    requires batch != [] && Greedy(batches + [batch])
    ensures Greedy(batches + [batch + [text]])
  {
    var before, after, n := batches + [batch], batches + [batch + [text]], |batches|;
    forall i | 0 < i < |after| ensures after[i] != [] && !Fits(after[i - 1] + [after[i][0]]) {
      assert before[i][0] == after[i][0] && before[i - 1] == after[i - 1];
    }
  }

  lemma ClosingStaysGreedy(batches: seq<seq<Text>>, batch: seq<Text>, text: Text)
    requires batch != [] && Greedy(batches + [batch]) && !Fits(batch + [text])
    ensures Greedy(batches + [batch] + [[text]])
  {
    var before, after := batches + [batch], batches + [batch] + [[text]];
    forall i | 0 < i < |after| ensures after[i] != [] && !Fits(after[i - 1] + [after[i][0]]) {
      assert i < |before| ==> before[i] == after[i];
      assert before[i - 1] == after[i - 1];
    }
  }

  /** Closed batches and the open one, part way through: as greedy batching leaves them. */
  ghost predicate Packing(batches: seq<seq<Text>>, batch: seq<Text>) {
    && (forall i :: 0 <= i < |batches| ==> Fits(batches[i]))
    && if batch == [] then batches == [] else Fits(batch) && Greedy(batches + [batch])
  }

  predicate Closes(batch: seq<Text>, size: nat, text: Text) {
    batch != [] && (|batch| == BATCH_TEXTS || size + text.bytes > BATCH_BYTES)
  }

  lemma PackingGoesOn(batches: seq<seq<Text>>, batch: seq<Text>, text: Text)
    requires Packing(batches, batch)
    ensures if Closes(batch, Bytes(batch), text) then Packing(batches + [batch], [text])
            else Packing(batches, batch + [text])
  {
    BytesAppend(batch, text);
    if Closes(batch, Bytes(batch), text) {
      ClosingStaysGreedy(batches, batch, text);
    } else if batch != [] {
      GrowingStaysGreedy(batches, batch, text);
    }
  }

  /** Closing the open batch, or not, and adding a text to what is then open. */
  lemma AddingText(batches: seq<seq<Text>>, batch: seq<Text>, text: Text)
    requires Packing(batches, batch)
    ensures Flat(batches + [batch]) + [text] == Flat(batches) + (batch + [text]) == Flat(batches) + batch + [text]
    ensures Bytes(batch + [text]) == Bytes(batch) + text.bytes && Bytes([text]) == text.bytes
    ensures if Closes(batch, Bytes(batch), text) then Packing(batches + [batch], [text])
            else Packing(batches, batch + [text])
  {
    PackingGoesOn(batches, batch, text);
    BytesAppend(batch, text);
    BytesAppend([], text);
    assert [] + [text] == [text];
    FlatAppend(batches, batch);
  }

  /**
   No batch is empty, too long, or too large unless it is one text; and one is closed only when it is
   as long as it may be, or when the next text would make it too large.
   */
  ghost predicate Filled(batches: seq<seq<Text>>) {
    && (forall i :: 0 <= i < |batches| ==>
          1 <= |batches[i]| <= BATCH_TEXTS && (|batches[i]| > 1 ==> Bytes(batches[i]) <= BATCH_BYTES))
    && forall i :: 0 < i < |batches| ==>
         |batches[i - 1]| == BATCH_TEXTS || Bytes(batches[i - 1]) + batches[i][0].bytes > BATCH_BYTES
  }

  lemma GreedyFills(batches: seq<seq<Text>>)
    requires Greedy(batches) && forall i :: 0 <= i < |batches| ==> Fits(batches[i])
    ensures Filled(batches)
  {
    forall i | 0 < i < |batches|
      ensures |batches[i - 1]| == BATCH_TEXTS || Bytes(batches[i - 1]) + batches[i][0].bytes > BATCH_BYTES
    {
      assert !Fits(batches[i - 1] + [batches[i][0]]);
      BytesAppend(batches[i - 1], batches[i][0]);
    }
  }

  /** The texts in order, grouped to stay inside the limits; no other grouping has fewer batches. */
  method Batches(texts: seq<Text>) returns (batches: seq<seq<Text>>)
    ensures Cut(batches, texts)
    ensures Filled(batches)
    ensures forall other :: Cut(other, texts) ==> |batches| <= |other|
  {
    batches := [];
    var batch, size := [], 0;
    for n := 0 to |texts|
      invariant Flat(batches) + batch == texts[..n]
      invariant size == Bytes(batch)
      invariant Packing(batches, batch)
    {
      var text := texts[n];
      AddingText(batches, batch, text);
      assert texts[..n + 1] == texts[..n] + [text];
      if batch != [] && (|batch| == BATCH_TEXTS || size + text.bytes > BATCH_BYTES) {
        batches := batches + [batch];
        batch, size := [], 0;
        assert batch + [text] == [text];
      }
      batch := batch + [text];
      size := size + text.bytes;
    }
    assert texts[..|texts|] == texts;
    if batch != [] {
      FlatAppend(batches, batch);
      batches := batches + [batch];
    }
    PackedIsFewest(batches, texts);
    GreedyFills(batches);
  }

  // ---- Greedy batches are the fewest ----

  lemma {:induction false} PartIsSmaller(batch: seq<Text>, lo: nat, hi: nat)
    requires lo <= hi <= |batch|
    ensures Bytes(batch[lo..hi]) <= Bytes(batch)
    decreases |batch| - lo, |batch|
  {
    if batch != [] {
      var n := |batch| - 1;
      if hi <= n {
        PartIsSmaller(batch[..n], lo, hi);
        assert batch[..n][lo..hi] == batch[lo..hi];
      } else if lo < hi {
        PartIsSmaller(batch[..n], lo, n);
        assert batch[lo..hi] == batch[..n][lo..n] + [batch[n]];
        BytesAppend(batch[..n][lo..n], batch[n]);
      }
    }
  }

  /** Any run of texts inside a batch that fits would fit as a batch. */
  lemma PartFits(texts: seq<Text>, n: nat, lo: nat, hi: nat)
    requires n <= |texts| && Fits(texts[..n]) && lo < hi <= n
    ensures Fits(texts[lo..hi])
  {
    PartIsSmaller(texts[..n], lo, hi);
    assert texts[..n][lo..hi] == texts[lo..hi];
  }

  /** Where the first batch ends, the rest of the batches begin. */
  lemma FirstBatchAndRest(batches: seq<seq<Text>>, start: nat, texts: seq<Text>)
    requires batches != [] && start <= |texts| && Flat(batches) == texts[start..]
    ensures start + |batches[0]| <= |texts|
    ensures batches[0] == texts[start..start + |batches[0]|]
    ensures Flat(batches[1..]) == texts[start + |batches[0]|..]
  {
    var all, first, rest := texts[start..], batches[0], Flat(batches[1..]);
    assert all == first + rest && |all| == |texts| - start;
    assert all[..|first|] == first && all[|first|..] == rest;
    assert texts[start..][..|first|] == texts[start..start + |first|];
    assert texts[start..][|first|..] == texts[start + |first|..];
  }

  /** A greedy batch reaches at least as far as any batch that began no later. */
  lemma GreedyReachesAsFar(greedy: seq<seq<Text>>, start: nat, theirs: nat, texts: seq<Text>)
    requires greedy != [] && Greedy(greedy) && start + |greedy[0]| <= |texts|
    requires Flat(greedy) == texts[start..] && theirs <= |texts| && Fits(texts[..theirs])
    ensures start + |greedy[0]| >= theirs
  {
    var mine := start + |greedy[0]|;
    FirstBatchAndRest(greedy, start, texts);
    if |greedy| > 1 {
      NextTextFollows(greedy);
      assert greedy[1][0] == texts[mine];
      assert texts[start..mine + 1] == greedy[0] + [greedy[1][0]];
      assert !Fits(greedy[1 - 1] + [greedy[1][0]]);
      if mine < theirs { PartFits(texts, theirs, start, mine + 1); }
    }
  }

  /** However late another cut of the rest starts, greedy batches need no more than it does. */
  lemma {:induction false} GreedyStaysAhead(greedy: seq<seq<Text>>, other: seq<seq<Text>>, start: nat, texts: seq<Text>)
    requires Greedy(greedy) && (forall i :: 0 <= i < |greedy| ==> Fits(greedy[i]))
    requires start <= |texts| && Flat(greedy) == texts[start..] && Cut(other, texts)
    ensures |greedy| <= |other|
    decreases |other|
  {
    if greedy != [] {
      FirstBatchAndRest(greedy, start, texts);
      assert Fits(greedy[0]);
      var mine, theirs := start + |greedy[0]|, |other[0]|;
      assert texts[0..] == texts;
      FirstBatchAndRest(other, 0, texts);
      assert other[0] == texts[..theirs];
      GreedyReachesAsFar(greedy, start, theirs, texts);
      TailIsGreedy(greedy);
      assert texts[theirs..][mine - theirs..] == texts[mine..];
      GreedyStaysAhead(greedy[1..], other[1..], mine - theirs, texts[theirs..]);
    }
  }

  lemma TailIsGreedy(greedy: seq<seq<Text>>)
    requires greedy != [] && Greedy(greedy)
    ensures Greedy(greedy[1..])
  {
    var tail := greedy[1..];
    forall i | 0 < i < |tail| ensures tail[i] != [] && !Fits(tail[i - 1] + [tail[i][0]]) {
      assert greedy[i + 1] == tail[i] && greedy[i] == tail[i - 1];
      assert !Fits(greedy[i + 1 - 1] + [greedy[i + 1][0]]);
    }
  }

  lemma NextTextFollows(greedy: seq<seq<Text>>)
    requires |greedy| > 1 && greedy[1] != []
    ensures Flat(greedy[1..]) != [] && Flat(greedy[1..])[0] == greedy[1][0]
  {
    assert greedy[1..][0] == greedy[1];
  }

  lemma PackedIsFewest(greedy: seq<seq<Text>>, texts: seq<Text>)
    requires Cut(greedy, texts) && Greedy(greedy)
    ensures forall other :: Cut(other, texts) ==> |greedy| <= |other|
  {
    assert texts[0..] == texts;
    forall other | Cut(other, texts) ensures |greedy| <= |other| { GreedyStaysAhead(greedy, other, 0, texts); }
  }

  // ---- The translations ----

  /** A text in the language asked for, and the language it was found to be in. */
  datatype Translation = Translation(text: string, language: string)

  function LowerChar(c: char): char {
    if 'A' <= c <= 'Z' then c - 'A' + 'a' else c
  }

  function Lower(s: string): (lower: string)
    ensures |lower| == |s|
    ensures forall c :: c in lower ==> !('A' <= c <= 'Z')
    ensures forall i :: 0 <= i < |s| ==>
              lower[i] == s[i] || ('A' <= s[i] <= 'Z' && lower[i] as int == s[i] as int + 32)
  {
    seq(|s|, i requires 0 <= i < |s| => LowerChar(s[i]))
  }

  /** What is kept of an answer: the text as it is, and the language in small letters. */
  function Kept(answer: Translation): Translation {
    Translation(answer.text, Lower(answer.language))
  }

  /** An answer for each text of a batch, in its order; the service may answer with fewer or more. */
  ghost predicate Translates(answer: seq<Translation>, batch: seq<Text>, translation: string -> Translation) {
    |answer| == |batch| ==> forall i :: 0 <= i < |batch| ==> answer[i] == translation(batch[i].text)
  }

  type Service = seq<Text> -> Option<seq<Translation>>

  ghost predicate Faithful(call: Service, translation: string -> Translation) {
    forall batch :: call(batch).Some? ==> Translates(call(batch).value, batch, translation)
  }

  ghost predicate Refused(call: Service, batch: seq<Text>) {
    call(batch).None? || |call(batch).value| != |batch|
  }

  ghost function Translated(texts: seq<Text>, translation: string -> Translation): (all: seq<Translation>)
    ensures |all| == |texts|
    ensures forall i :: 0 <= i < |texts| ==> all[i] == Kept(translation(texts[i].text))
  {
    seq(|texts|, i requires 0 <= i < |texts| => Kept(translation(texts[i].text)))
  }

  lemma TranslatedConcat(a: seq<Text>, b: seq<Text>, translation: string -> Translation)
    ensures Translated(a + b, translation) == Translated(a, translation) + Translated(b, translation)
  {}

  method TranslateBatch(batch: seq<Text>, call: Service, ghost translation: string -> Translation)
    returns (r: Result<seq<Translation>, string>)
    requires Faithful(call, translation)
    ensures r.Failure? <==> Refused(call, batch)
    ensures r.Success? ==> r.value == Translated(batch, translation)
  {
    var answer := call(batch);
    if answer.None? {
      return Failure("The request failed.");
    }
    if |answer.value| != |batch| {
      return Failure("DeepL did not translate every text.");
    }
    assert Translates(answer.value, batch, translation);
    var kept := [];
    for n := 0 to |batch|
      invariant kept == Translated(batch, translation)[..n]
    {
      kept := kept + [Kept(answer.value[n])];
    }
    r := Success(kept);
  }

  /** One translation per text, in order, or a refusal when some answer has not one per text. */
  method Perform(texts: seq<Text>, known: bool, call: Service, ghost translation: string -> Translation)
    returns (r: Result<seq<Translation>, string>)
    requires Faithful(call, translation)
    ensures !known ==> r.Failure?
    ensures r.Success? ==>
              && |r.value| == |texts|
              && forall i :: 0 <= i < |texts| ==>
                   && r.value[i].text == translation(texts[i].text).text
                   && r.value[i].language == Lower(translation(texts[i].text).language)
    ensures r.Failure? && known ==> exists batch :: Fits(batch) && Refused(call, batch)
  {
    if !known {
      return Failure("DeepL does not translate into that language.");
    }
    var batches := Batches(texts);
    var translations := [];
    for n := 0 to |batches|
      invariant translations == Translated(Flat(batches[..n]), translation)
    {
      var answer := TranslateBatch(batches[n], call, translation);
      if answer.Failure? {
        assert Fits(batches[n]) && Refused(call, batches[n]);
        return answer;
      }
      OneBatchMore(batches, n, translation);
      translations := translations + answer.value;
    }
    assert batches[..|batches|] == batches;
    r := Success(translations);
  }

  lemma OneBatchMore(batches: seq<seq<Text>>, n: nat, translation: string -> Translation)
    requires n < |batches|
    ensures Translated(Flat(batches[..n + 1]), translation)
         == Translated(Flat(batches[..n]), translation) + Translated(batches[n], translation)
  {
    assert batches[..n + 1] == batches[..n] + [batches[n]];
    FlatAppend(batches[..n], batches[n]);
    TranslatedConcat(Flat(batches[..n]), batches[n], translation);
  }
}
