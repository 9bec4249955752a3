/**
 * `chunk_text_block`: the sentences of a text, as the sentence tokenizer
 * returns them, are cut into consecutive groups of at most `max_sentences`
 * (`range(0, len(sents), max_sentences)` and the slice `sents[i:i+max_sentences]`);
 * each group is joined with single spaces and stripped, and blank groups are dropped.
 * The tokenizer (NLTK's `sent_tokenize`) is a parameter `string -> seq<string>`.
 */
module SentenceGroups {
  import opened Wrappers
  import opened PyStr

  /** The exceptions the chunker can raise: a `KeyError` on a block dictionary,
      and the `ValueError` of `range()` when its step is zero. */
  datatype ChunkError = MissingKey(key: string) | ZeroStep

  function Min(a: int, b: int): int { if a <= b then a else b }

  /** The groups `sents[i:i+m]` for i = start, start + m, ... while i < len(sents). */
  function GroupsFrom(sents: seq<string>, m: nat, start: nat): seq<seq<string>>
    requires m > 0
    decreases |sents| - start
  {
    if start >= |sents| then []
    else [sents[start..Min(start + m, |sents|)]] + GroupsFrom(sents, m, start + m)
  }

  /** The groups the loop of `chunk_text_block` visits, for a positive step m. */
  function Groups(sents: seq<string>, m: nat): seq<seq<string>>
    requires m > 0
  {
    GroupsFrom(sents, m, 0)
  }

  /** The groups laid end to end. */
  function Flatten(gs: seq<seq<string>>): seq<string> {
    if gs == [] then [] else gs[0] + Flatten(gs[1..])
  }

  /**
   * There are ceil((n - start) / m) groups, stated without division: the
   * smallest count c with c * m >= n - start.
   */
  lemma {:induction false} GroupsFromCount(sents: seq<string>, m: nat, start: nat)
    requires m > 0 && start <= |sents|
    decreases |sents| - start
    ensures var c := |GroupsFrom(sents, m, start)|;
      c * m >= |sents| - start && (c > 0 ==> (c - 1) * m < |sents| - start)
  {
    if start < |sents| {
      var rest := GroupsFrom(sents, m, start + m);
      assert |GroupsFrom(sents, m, start)| == |rest| + 1;
      if start + m < |sents| {
        GroupsFromCount(sents, m, start + m);
        assert (|rest| + 1) * m == |rest| * m + m;
      }
    }
  }

  /** Every group but the last holds exactly m sentences, the last between 1 and m. */
  lemma {:induction false} GroupsFromSizes(sents: seq<string>, m: nat, start: nat)
    requires m > 0
    decreases |sents| - start
    ensures var gs := GroupsFrom(sents, m, start);
      && (forall g | 0 <= g < |gs| - 1 :: |gs[g]| == m)
      && (gs != [] ==> 1 <= |gs[|gs| - 1]| <= m)
  {
    if start < |sents| {
      var gs := GroupsFrom(sents, m, start);
      var rest := GroupsFrom(sents, m, start + m);
      assert gs == [sents[start..Min(start + m, |sents|)]] + rest;
      GroupsFromSizes(sents, m, start + m);
      assert forall g | 1 <= g < |gs| :: gs[g] == rest[g - 1];
    }
  }

  /** Laid end to end, the groups give back the sentences from `start` on, in order. */
  lemma {:induction false} GroupsFromFlatten(sents: seq<string>, m: nat, start: nat)
    requires m > 0 && start <= |sents|
    decreases |sents| - start
    ensures Flatten(GroupsFrom(sents, m, start)) == sents[start..]
  {
    if start < |sents| {
      var gs := GroupsFrom(sents, m, start);
      var first := sents[start..Min(start + m, |sents|)];
      assert gs[0] == first && gs[1..] == GroupsFrom(sents, m, start + m);
      if start + m < |sents| {
        GroupsFromFlatten(sents, m, start + m);
        assert sents[start..] == first + sents[start + m..];
      }
    }
  }

  /** The 17-sentence, step-8 case: three groups of sizes 8, 8 and 1. */
  lemma SeventeenSentencesByEight(sents: seq<string>)
    requires |sents| == 17
    ensures var gs := Groups(sents, 8);
      |gs| == 3 && |gs[0]| == 8 && |gs[1]| == 8 && |gs[2]| == 1
  {
    assert GroupsFrom(sents, 8, 16) == [sents[16..17]] + GroupsFrom(sents, 8, 24);
    assert GroupsFrom(sents, 8, 8) == [sents[8..16]] + GroupsFrom(sents, 8, 16);
    assert GroupsFrom(sents, 8, 0) == [sents[0..8]] + GroupsFrom(sents, 8, 8);
  }

  /** The text a group becomes: `" ".join(group).strip()`. */
  function GroupText(group: seq<string>): string {
    Strip(Join(group))
  }

  /** A group is dropped exactly when every sentence in it is blank. */
  lemma GroupDroppedIffBlank(group: seq<string>)
    ensures GroupText(group) == [] <==> AllBlank(group)
  {
    StripSpec(Join(group));
    JoinAllSpace(group);
  }

  /** The texts of the groups, in group order, without the empty ones. */
  function NonEmptyTexts(gs: seq<seq<string>>): (r: seq<string>)
    ensures |r| <= |gs|
  {
    if gs == [] then []
    else
      var t := GroupText(gs[0]);
      (if t != [] then [t] else []) + NonEmptyTexts(gs[1..])
  }

  /** Texts none of which is empty and each of which `strip()` leaves unchanged. */
  predicate AllStrippedNonEmpty(texts: seq<string>) {
    forall k | 0 <= k < |texts| :: texts[k] != [] && Strip(texts[k]) == texts[k]
  }

  /** No kept text is empty, and each is already stripped. */
  lemma {:induction false} NonEmptyTextsStripped(gs: seq<seq<string>>)
    ensures AllStrippedNonEmpty(NonEmptyTexts(gs))
  {
    if gs != [] {
      NonEmptyTextsStripped(gs[1..]);
      var t := GroupText(gs[0]);
      var rest := NonEmptyTexts(gs[1..]);
      if t != [] {
        assert NonEmptyTexts(gs) == [t] + rest;
        StripIdempotent(Join(gs[0]));
        forall k | 0 <= k < |rest| + 1
          ensures ([t] + rest)[k] != [] && Strip(([t] + rest)[k]) == ([t] + rest)[k]
        {
          if k > 0 {
            assert ([t] + rest)[k] == rest[k - 1];
          }
        }
      } else {
        assert NonEmptyTexts(gs) == rest;
      }
    }
  }

  /** When no group is blank nothing is dropped: one text per group, in group order. */
  lemma {:induction false} NothingDroppedWhenNoneBlank(gs: seq<seq<string>>)
    requires forall g | 0 <= g < |gs| :: GroupText(gs[g]) != []
    ensures NonEmptyTexts(gs) == seq(|gs|, g requires 0 <= g < |gs| => GroupText(gs[g]))
  {
    if gs != [] {
      NothingDroppedWhenNoneBlank(gs[1..]);
    }
  }

  /** Sentences that are all blank give no text at all. */
  lemma {:induction false} BlankSentencesGiveNoText(sents: seq<string>, m: nat, start: nat)
    requires m > 0 && AllBlank(sents)
    ensures NonEmptyTexts(GroupsFrom(sents, m, start)) == []
    decreases |sents| - start
  {
    if start < |sents| {
      var g := sents[start..Min(start + m, |sents|)];
      forall i | 0 <= i < |g| ensures AllSpace(g[i]) {
        assert g[i] == sents[start + i];
      }
      GroupDroppedIffBlank(g);
      BlankSentencesGiveNoText(sents, m, start + m);
      var gs := GroupsFrom(sents, m, start);
      assert gs[0] == g && gs[1..] == GroupsFrom(sents, m, start + m);
    }
  }

  /** What `chunk_text_block` returns for a non-zero step: a negative step
      gives an empty `range`, so no text at all. */
  function TextChunks(sents: seq<string>, m: int): seq<string>
    requires m != 0
  {
    if m < 0 then [] else NonEmptyTexts(Groups(sents, m))
  }

  /** The texts kept so far, followed by the texts of the groups from `start` on,
      are all the texts. */
  predicate KeptSoFar(sents: seq<string>, m: nat, start: nat, kept: seq<string>)
    requires m > 0
  {
    kept + NonEmptyTexts(GroupsFrom(sents, m, start)) == NonEmptyTexts(Groups(sents, m))
  }

  /** One step of the loop: the next group contributes its text, unless that text is empty. */
  lemma NonEmptyTextsStep(sents: seq<string>, m: nat, start: nat, done: seq<string>, next: seq<string>)
    requires m > 0 && start < |sents|
    requires KeptSoFar(sents, m, start, done)
    requires var t := GroupText(sents[start..Min(start + m, |sents|)]);
      next == if t != [] then done + [t] else done
    ensures KeptSoFar(sents, m, start + m, next)
  {
    var g := sents[start..Min(start + m, |sents|)];
    var rest := GroupsFrom(sents, m, start + m);
    assert GroupsFrom(sents, m, start) == [g] + rest;
    var t := GroupText(g);
    assert NonEmptyTexts([g] + rest) == (if t != [] then [t] else []) + NonEmptyTexts(rest) by {
      assert ([g] + rest)[1..] == rest;
    }
    AppendKept(done, t, NonEmptyTexts(rest), next);
  }

  /** Appending a kept text to `done` and then the later texts is `done` followed by
      that text's contribution and the later texts. */
  lemma AppendKept(done: seq<string>, t: string, later: seq<string>, next: seq<string>)
    requires next == if t != [] then done + [t] else done
    ensures next + later == done + ((if t != [] then [t] else []) + later)
  {
    if t != [] {
      assert done + ([t] + later) == (done + [t]) + later;
    } else {
      assert [] + later == later;
    }
  }

  /** Once the groups are exhausted, the texts kept are all the texts. */
  lemma KeptAll(sents: seq<string>, m: nat, start: nat, kept: seq<string>)
    requires m > 0 && start >= |sents| && KeptSoFar(sents, m, start, kept)
    ensures kept == NonEmptyTexts(Groups(sents, m))
  {
    assert kept + [] == kept;
  }

  /** The loop of `chunk_text_block` for a positive step: the texts of the groups
      `sents[i:i+m]`, in order, each kept unless it is empty. */
  method CollectTexts(sents: seq<string>, m: nat) returns (chunks: seq<string>)
    requires m > 0
    ensures chunks == NonEmptyTexts(Groups(sents, m))
  {
    chunks := [];
    var i: nat := 0;
    while i < |sents|
      invariant KeptSoFar(sents, m, i, chunks)
      decreases |sents| - i
    {
      // " ".join(sents[i:i+m]).strip()
      var chunkText := GroupText(sents[i..Min(i + m, |sents|)]);
      if chunkText != [] {
        NonEmptyTextsStep(sents, m, i, chunks, chunks + [chunkText]);
        chunks := chunks + [chunkText];
      } else {
        NonEmptyTextsStep(sents, m, i, chunks, chunks);
      }
      i := i + m;
    }
    KeptAll(sents, m, i, chunks);
  }

  /** `chunk_text_block(text, max_sentences)`. */
  method ChunkTextBlock(sentTokenize: string -> seq<string>, text: string, maxSentences: int)
    returns (r: Result<seq<string>, ChunkError>)
    ensures maxSentences == 0 <==> r.Failure?
    ensures r.Failure? ==> r.error == ZeroStep
    ensures r.Success? ==> r.value == TextChunks(sentTokenize(text), maxSentences)
    ensures r.Success? ==> AllStrippedNonEmpty(r.value)
    ensures r.Success? && maxSentences > 0 ==> |r.value| <= |Groups(sentTokenize(text), maxSentences)|
  {
    var sents := sentTokenize(text);
    if maxSentences == 0 {
      return Failure(ZeroStep);
    }
    var chunks: seq<string> := [];
    if maxSentences > 0 {
      chunks := CollectTexts(sents, maxSentences);
      NonEmptyTextsStripped(Groups(sents, maxSentences));
    }
    return Success(chunks);
  }
}
