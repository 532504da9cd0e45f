/**
 * `_split_into_chunks` of the embedding service: sentences are packed greedily,
 * in order, into chunks whose token count stays within a budget. A sentence joins
 * the current chunk unless that would take the chunk over the budget, in which
 * case the chunk is closed and the sentence starts the next one; a sentence over
 * the budget on its own therefore forms a chunk by itself.
 *
 * The sentence list is an input (the regular expressions that clean and split the
 * text are not part of this model) and the tokenizer is the parameter `tokens`,
 * the number of tokens of a sentence.
 */
module Chunking {
  import opened Text

  type TokenCounter = string -> nat

  /** The number of tokens of a group of sentences. */
  function Tokens(group: seq<string>, tokens: TokenCounter): nat {
    if group == [] then 0 else Tokens(group[..|group| - 1], tokens) + tokens(group[|group| - 1])
  }

  /** The sentences of the groups, in order. */
  function Flatten(groups: seq<seq<string>>): seq<string> {
    if groups == [] then [] else groups[0] + Flatten(groups[1..])
  }

  /** What a greedy packing of `sentences` is: the groups hold every sentence once,
      in order; no group is empty; a group stays within the budget unless it is a
      single sentence; and every group but the last was closed only because the
      first sentence of the next group would have taken it over the budget. */
  ghost predicate GreedyPartition(groups: seq<seq<string>>, sentences: seq<string>, tokens: TokenCounter,
                                  maxTokens: int)
  {
    && Flatten(groups) == sentences
    && WithinBudget(groups, tokens, maxTokens)
    && ClosedWhenFull(groups, tokens, maxTokens)
  }

  /** No group is empty, and a group is within the budget unless it is a single
      sentence. */
  ghost predicate WithinBudget(groups: seq<seq<string>>, tokens: TokenCounter, maxTokens: int) {
    forall k :: 0 <= k < |groups| ==>
      groups[k] != [] && (Tokens(groups[k], tokens) <= maxTokens || |groups[k]| == 1)
  }

  /** Every group but the last is followed by a non-empty group whose first
      sentence would take it over the budget. */
  ghost predicate ClosedWhenFull(groups: seq<seq<string>>, tokens: TokenCounter, maxTokens: int) {
    forall k :: 0 <= k < |groups| - 1 ==> FullBeforeNext(groups, k, tokens, maxTokens)
  }

  /** Group k is followed by a non-empty group whose first sentence would take
      group k over the budget. */
  ghost predicate FullBeforeNext(groups: seq<seq<string>>, k: nat, tokens: TokenCounter, maxTokens: int) {
    && k + 1 < |groups|
    && groups[k + 1] != []
    && Tokens(groups[k], tokens) + tokens(groups[k + 1][0]) > maxTokens
  }

  /** The groups the loop of `_split_into_chunks` closes from the remaining
      sentences, given the open chunk and its token count. */
  function PackFrom(rest: seq<string>, current: seq<string>, currentTokens: int, tokens: TokenCounter,
                    maxTokens: int): seq<seq<string>>
    decreases |rest|
  {
    if rest == [] then
      if current == [] then [] else [current]
    else
      var t := tokens(rest[0]);
      if currentTokens + t > maxTokens && current != [] then
        [current] + PackFrom(rest[1..], [rest[0]], t, tokens, maxTokens)
      else
        PackFrom(rest[1..], current + [rest[0]], currentTokens + t, tokens, maxTokens)
  }

  /** The groups of sentences `_split_into_chunks` forms: a greedy packing of the
      sentences. */
  function Pack(sentences: seq<string>, tokens: TokenCounter, maxTokens: int): (r: seq<seq<string>>)
    ensures GreedyPartition(r, sentences, tokens, maxTokens)
  {
    PackFromFlatten(sentences, [], 0, tokens, maxTokens);
    assert [] + sentences == sentences;
    PackFromBudget(sentences, [], 0, tokens, maxTokens);
    PackFromMaximal(sentences, [], 0, tokens, maxTokens);
    PackFrom(sentences, [], 0, tokens, maxTokens)
  }

  /** Each group joined with single spaces (`' '.join(current_chunk)`). */
  function JoinGroups(groups: seq<seq<string>>): (chunks: seq<string>)
    ensures |chunks| == |groups|
    ensures forall k :: 0 <= k < |groups| ==> chunks[k] == Join(groups[k], " ")
  {
    if groups == [] then [] else [Join(groups[0], " ")] + JoinGroups(groups[1..])
  }

  /** `_split_into_chunks` from the sentence list on. */
  method SplitIntoChunks(sentences: seq<string>, tokens: TokenCounter, maxTokens: int)
    returns (chunks: seq<string>)
    ensures chunks == JoinGroups(Pack(sentences, tokens, maxTokens))
  {
    chunks := [];
    ghost var groups: seq<seq<string>> := [];
    var current: seq<string> := [];
    var currentTokens := 0;
    var i := 0;
    while i < |sentences|
      invariant 0 <= i <= |sentences|
      invariant chunks == JoinGroups(groups)
      invariant groups + PackFrom(sentences[i..], current, currentTokens, tokens, maxTokens)
                == Pack(sentences, tokens, maxTokens)
    {
      var sentence := sentences[i];
      var sentenceTokens := tokens(sentence);
      assert sentences[i..][1..] == sentences[i + 1..];
      if currentTokens + sentenceTokens > maxTokens && current != [] {
        CloseStep(groups, sentences[i..], current, currentTokens, tokens, maxTokens);
        JoinGroupsSnoc(groups, current);
        chunks := chunks + [Join(current, " ")];
        groups := groups + [current];
        current := [sentence];
        currentTokens := sentenceTokens;
      } else {
        ExtendStep(sentences[i..], current, currentTokens, tokens, maxTokens);
        current := current + [sentence];
        currentTokens := currentTokens + sentenceTokens;
      }
      i := i + 1;
    }
    if current != [] {
      JoinGroupsSnoc(groups, current);
      chunks := chunks + [Join(current, " ")];
      groups := groups + [current];
    }
  }

  /** Closing the open chunk moves it to the closed groups. */
  lemma CloseStep(groups: seq<seq<string>>, rest: seq<string>, current: seq<string>, currentTokens: int,
                  tokens: TokenCounter, maxTokens: int)
    requires rest != [] && currentTokens + tokens(rest[0]) > maxTokens && current != []
    ensures (groups + [current]) + PackFrom(rest[1..], [rest[0]], tokens(rest[0]), tokens, maxTokens)
            == groups + PackFrom(rest, current, currentTokens, tokens, maxTokens)
  {
    var tail := PackFrom(rest[1..], [rest[0]], tokens(rest[0]), tokens, maxTokens);
    assert PackFrom(rest, current, currentTokens, tokens, maxTokens) == [current] + tail;
    assert (groups + [current]) + tail == groups + ([current] + tail);
  }

  /** A sentence that fits joins the open chunk. */
  lemma ExtendStep(rest: seq<string>, current: seq<string>, currentTokens: int,
                   tokens: TokenCounter, maxTokens: int)
    requires rest != [] && !(currentTokens + tokens(rest[0]) > maxTokens && current != [])
    ensures PackFrom(rest[1..], current + [rest[0]], currentTokens + tokens(rest[0]), tokens, maxTokens)
            == PackFrom(rest, current, currentTokens, tokens, maxTokens)
  {
  }

  lemma JoinGroupsSnoc(groups: seq<seq<string>>, group: seq<string>)
    ensures JoinGroups(groups + [group]) == JoinGroups(groups) + [Join(group, " ")]
  {
  }

  lemma {:induction false} FlattenAppend(a: seq<seq<string>>, b: seq<seq<string>>)
    ensures Flatten(a + b) == Flatten(a) + Flatten(b)
    decreases |a|
  {
    if a != [] {
      assert (a + b)[0] == a[0];
      assert (a + b)[1..] == a[1..] + b;
      FlattenAppend(a[1..], b);
      assert Flatten(a + b) == a[0] + (Flatten(a[1..]) + Flatten(b));
    } else {
      assert a + b == b;
    }
  }

  lemma TokensSnoc(group: seq<string>, s: string, tokens: TokenCounter)
    ensures Tokens(group + [s], tokens) == Tokens(group, tokens) + tokens(s)
  {
    assert (group + [s])[..|group|] == group;
  }

  /** The tokens of a prefix never exceed those of the whole group. */
  lemma {:induction false} TokensPrefix(group: seq<string>, n: nat, tokens: TokenCounter)
    requires n <= |group|
    ensures Tokens(group[..n], tokens) <= Tokens(group, tokens)
    decreases |group|
  {
    if n < |group| {
      var shorter := group[..|group| - 1];
      assert shorter[..n] == group[..n];
      TokensPrefix(shorter, n, tokens);
    } else {
      assert group[..n] == group;
    }
  }

  /** Packing loses, duplicates and reorders nothing: the groups hold the open
      chunk followed by the remaining sentences. */
  lemma {:induction false} PackFromFlatten(rest: seq<string>, current: seq<string>, currentTokens: int,
                                           tokens: TokenCounter, maxTokens: int)
    ensures Flatten(PackFrom(rest, current, currentTokens, tokens, maxTokens)) == current + rest
    decreases |rest|
  {
    if rest == [] {
      assert current + rest == current;
      if current != [] {
        assert Flatten([current]) == current + Flatten([]);
      }
    } else {
      var t := tokens(rest[0]);
      assert current + rest == (current + [rest[0]]) + rest[1..];
      if currentTokens + t > maxTokens && current != [] {
        var tail := PackFrom(rest[1..], [rest[0]], t, tokens, maxTokens);
        PackFromFlatten(rest[1..], [rest[0]], t, tokens, maxTokens);
        FlattenAppend([current], tail);
        assert Flatten([current]) == current + Flatten([]);
      } else {
        PackFromFlatten(rest[1..], current + [rest[0]], currentTokens + t, tokens, maxTokens);
      }
    }
  }

  /** Every closed group is non-empty and within the budget unless it is a single
      sentence, provided the open chunk is. */
  lemma {:induction false} PackFromBudget(rest: seq<string>, current: seq<string>, currentTokens: int,
                                          tokens: TokenCounter, maxTokens: int)
    requires currentTokens == Tokens(current, tokens)
    requires current == [] || currentTokens <= maxTokens || |current| == 1
    ensures WithinBudget(PackFrom(rest, current, currentTokens, tokens, maxTokens), tokens, maxTokens)
    decreases |rest|
  {
    if rest != [] {
      var t := tokens(rest[0]);
      if currentTokens + t > maxTokens && current != [] {
        assert Tokens([rest[0]], tokens) == t by {
          TokensSnoc([], rest[0], tokens);
        }
        PackFromBudget(rest[1..], [rest[0]], t, tokens, maxTokens);
        var tail := PackFrom(rest[1..], [rest[0]], t, tokens, maxTokens);
        var groups := PackFrom(rest, current, currentTokens, tokens, maxTokens);
        assert groups == [current] + tail;
        assert forall k :: 1 <= k < |groups| ==> groups[k] == tail[k - 1];
      } else {
        TokensSnoc(current, rest[0], tokens);
        PackFromBudget(rest[1..], current + [rest[0]], currentTokens + t, tokens, maxTokens);
      }
    }
  }

  /** The first group closed extends the open chunk. */
  lemma {:induction false} PackFromFirst(rest: seq<string>, current: seq<string>, currentTokens: int,
                                         tokens: TokenCounter, maxTokens: int)
    requires current != []
    ensures var groups := PackFrom(rest, current, currentTokens, tokens, maxTokens);
      groups != [] && |current| <= |groups[0]| && groups[0][..|current|] == current
    decreases |rest|
  {
    if rest != [] {
      var t := tokens(rest[0]);
      if !(currentTokens + t > maxTokens) {
        PackFromFirst(rest[1..], current + [rest[0]], currentTokens + t, tokens, maxTokens);
        var groups := PackFrom(rest, current, currentTokens, tokens, maxTokens);
        assert groups[0][..|current|] == groups[0][..|current| + 1][..|current|];
      }
    }
  }

  /** A group is closed only when the next sentence would take it over the budget. */
  lemma {:induction false} PackFromMaximal(rest: seq<string>, current: seq<string>, currentTokens: int,
                                           tokens: TokenCounter, maxTokens: int)
    requires currentTokens == Tokens(current, tokens)
    ensures ClosedWhenFull(PackFrom(rest, current, currentTokens, tokens, maxTokens), tokens, maxTokens)
    decreases |rest|
  {
    if rest != [] {
      var t := tokens(rest[0]);
      if currentTokens + t > maxTokens && current != [] {
        var tail := PackFrom(rest[1..], [rest[0]], t, tokens, maxTokens);
        assert Tokens([rest[0]], tokens) == t by {
          TokensSnoc([], rest[0], tokens);
        }
        PackFromMaximal(rest[1..], [rest[0]], t, tokens, maxTokens);
        PackFromFirst(rest[1..], [rest[0]], t, tokens, maxTokens);
        assert tail[0][0] == rest[0];
        var groups := PackFrom(rest, current, currentTokens, tokens, maxTokens);
        assert groups == [current] + tail;
        forall k | 0 <= k < |groups| - 1
          ensures FullBeforeNext(groups, k, tokens, maxTokens)
        {
          if k > 0 {
            assert FullBeforeNext(tail, k - 1, tokens, maxTokens);
            assert groups[k] == tail[k - 1] && groups[k + 1] == tail[k];
          } else {
            assert groups[1] == tail[0];
          }
        }
      } else {
        TokensSnoc(current, rest[0], tokens);
        PackFromMaximal(rest[1..], current + [rest[0]], currentTokens + t, tokens, maxTokens);
      }
    }
  }

  /** Two greedy packings of the same sentences start with the same group. */
  lemma FirstGroupsAgree(g1: seq<seq<string>>, g2: seq<seq<string>>, sentences: seq<string>,
                         tokens: TokenCounter, maxTokens: int)
    requires GreedyPartition(g1, sentences, tokens, maxTokens)
    requires GreedyPartition(g2, sentences, tokens, maxTokens)
    requires sentences != []
    ensures g1 != [] && g2 != [] && g1[0] == g2[0]
  {
    assert g1 != [] && g2 != [];
    assert sentences == g1[0] + Flatten(g1[1..]);
    assert sentences == g2[0] + Flatten(g2[1..]);
    if |g1[0]| < |g2[0]| {
      ShorterFirstGroup(g1, g2, sentences, tokens, maxTokens);
    } else if |g2[0]| < |g1[0]| {
      ShorterFirstGroup(g2, g1, sentences, tokens, maxTokens);
    }
    assert g1[0] == sentences[..|g1[0]|];
    assert g2[0] == sentences[..|g2[0]|];
  }

  /** A greedy packing cannot close its first group before another greedy packing
      of the same sentences does. */
  lemma ShorterFirstGroup(g1: seq<seq<string>>, g2: seq<seq<string>>, sentences: seq<string>,
                          tokens: TokenCounter, maxTokens: int)
    requires GreedyPartition(g1, sentences, tokens, maxTokens)
    requires GreedyPartition(g2, sentences, tokens, maxTokens)
    requires g1 != [] && g2 != []
    ensures |g2[0]| <= |g1[0]|
  {
    var h, g := g1[0], g2[0];
    assert sentences == h + Flatten(g1[1..]);
    assert sentences == g + Flatten(g2[1..]);
    if |h| < |g| {
      var n := |h|;
      assert sentences[..n] == h;
      assert g[..n] == sentences[..n];
      // g1 has a second group, which starts with the sentence after h.
      assert |g1| > 1;
      assert Flatten(g1[1..]) == g1[1] + Flatten(g1[2..]);
      assert g1[1][0] == sentences[n] == g[n];
      assert FullBeforeNext(g1, 0, tokens, maxTokens);
      assert Tokens(h, tokens) + tokens(g[n]) > maxTokens;
      // g has at least two sentences, so it is within the budget.
      assert Tokens(g, tokens) <= maxTokens;
      assert g[..n + 1] == h + [g[n]];
      TokensSnoc(h, g[n], tokens);
      TokensPrefix(g, n + 1, tokens);
      assert false;
    }
  }

  /** Greedy packing is unique: any greedy packing of the sentences is the one
      `_split_into_chunks` forms. */
  lemma {:induction false} GreedyPartitionUnique(groups: seq<seq<string>>, sentences: seq<string>,
                                                 tokens: TokenCounter, maxTokens: int)
    requires GreedyPartition(groups, sentences, tokens, maxTokens)
    ensures groups == Pack(sentences, tokens, maxTokens)
    decreases |sentences|
  {
    var packed := Pack(sentences, tokens, maxTokens);
    GreedyUnique(groups, packed, sentences, tokens, maxTokens);
  }

  lemma {:induction false} GreedyUnique(g1: seq<seq<string>>, g2: seq<seq<string>>, sentences: seq<string>,
                                        tokens: TokenCounter, maxTokens: int)
    requires GreedyPartition(g1, sentences, tokens, maxTokens)
    requires GreedyPartition(g2, sentences, tokens, maxTokens)
    ensures g1 == g2
    decreases |sentences|
  {
    if sentences != [] {
      FirstGroupsAgree(g1, g2, sentences, tokens, maxTokens);
      var rest := sentences[|g1[0]|..];
      assert sentences == g1[0] + Flatten(g1[1..]);
      assert sentences == g2[0] + Flatten(g2[1..]);
      assert Flatten(g1[1..]) == rest == Flatten(g2[1..]);
      RestIsGreedy(g1, sentences, tokens, maxTokens);
      RestIsGreedy(g2, sentences, tokens, maxTokens);
      GreedyUnique(g1[1..], g2[1..], rest, tokens, maxTokens);
      assert g1 == [g1[0]] + g1[1..];
      assert g2 == [g2[0]] + g2[1..];
    }
  }

  /** Dropping the first group of a greedy packing leaves a greedy packing of the
      remaining sentences. */
  lemma RestIsGreedy(groups: seq<seq<string>>, sentences: seq<string>, tokens: TokenCounter,
                     maxTokens: int)
    requires GreedyPartition(groups, sentences, tokens, maxTokens) && groups != []
    ensures GreedyPartition(groups[1..], sentences[|groups[0]|..], tokens, maxTokens)
  {
    assert sentences == groups[0] + Flatten(groups[1..]);
    assert sentences[|groups[0]|..] == Flatten(groups[1..]);
    var rest := groups[1..];
    assert forall k :: 0 <= k < |rest| ==> rest[k] == groups[k + 1];
    forall k | 0 <= k < |rest| - 1
      ensures FullBeforeNext(rest, k, tokens, maxTokens)
    {
      assert FullBeforeNext(groups, k + 1, tokens, maxTokens);
    }
  }
}
