/**
 * `chunk_text`: an external splitter cuts the text into raw chunks; a greedy
 * loop then accumulates raw chunks (each followed by a space) in a buffer,
 * measures the buffer with the tokenizer after every append, and emits the
 * stripped buffer as soon as it reaches `minTokens`.
 *
 * The splitter and the tokenizer are parameters. The model proves that the
 * loop cuts the raw chunks into consecutive minimal groups (`IsGreedyGrouping`),
 * that this grouping is unique and equals the reference `Greedy`, and that
 * the check after the loop can never emit anything.
 */
module Chunking {
  import opened Wrappers
  import PyStr

  const DefaultMinTokens := 400
  const DefaultMaxTokens := 500
  /**
   * The overlap handed to the splitter with every call. The splitter measures
   * with `len`, so it and the chunk size `max_tokens` count characters, not tokens.
   */
  const ChunkOverlap := 50

  /** The text splitter: (text, chunk size, chunk overlap) to raw chunks, sizes in characters. */
  type Splitter = (string, int, int) -> seq<string>

  /** The tokenizer, reduced to what the loop uses: the number of tokens. */
  type TokenCounter = string -> nat

  /** The buffer after appending the chunks of `g`, each followed by a space. */
  function Buffered(g: seq<string>): (b: string)
    ensures g != [] ==> |b| > 0 && b[|b| - 1] == ' '
  {
    if g == [] then "" else Buffered(g[..|g| - 1]) + g[|g| - 1] + " "
  }

  function Concat(gs: seq<seq<string>>): seq<string>
  {
    if gs == [] then [] else Concat(gs[..|gs| - 1]) + gs[|gs| - 1]
  }

  /** Raw chunks whose every non-empty prefix, buffered, stays below the threshold. */
  ghost predicate BelowThreshold(t: seq<string>, tokenLen: TokenCounter, minTokens: int)
  {
    forall j :: 1 <= j <= |t| ==> tokenLen(Buffered(t[..j])) < minTokens
  }

  /** A group reaches the threshold, and none of its proper prefixes does. */
  ghost predicate MinimalGroup(g: seq<string>, tokenLen: TokenCounter, minTokens: int)
  {
    && g != []
    && tokenLen(Buffered(g)) >= minTokens
    && BelowThreshold(g[..|g| - 1], tokenLen, minTokens)
  }

  /** Emitted groups, and the raw chunks left in the buffer at the end. */
  datatype Grouping = Grouping(groups: seq<seq<string>>, tail: seq<string>)

  /**
   * The raw chunks are cut, in order, into consecutive minimal groups
   * followed by a tail that never reached the threshold.
   */
  ghost predicate IsGreedyGrouping(raw: seq<string>, tokenLen: TokenCounter, minTokens: int, p: Grouping)
  {
    && Concat(p.groups) + p.tail == raw
    && (forall k :: 0 <= k < |p.groups| ==> MinimalGroup(p.groups[k], tokenLen, minTokens))
    && BelowThreshold(p.tail, tokenLen, minTokens)
  }

  /** The length of the shortest prefix of `raw`, from `n` on, that reaches the threshold. */
  function FirstReach(raw: seq<string>, tokenLen: TokenCounter, minTokens: int, n: nat): (r: Option<nat>)
    requires 1 <= n <= |raw| + 1
    ensures r.Some? ==> n <= r.value <= |raw| && tokenLen(Buffered(raw[..r.value])) >= minTokens
    ensures r.Some? ==> forall j :: n <= j < r.value ==> tokenLen(Buffered(raw[..j])) < minTokens
    ensures r.None? ==> forall j :: n <= j <= |raw| ==> tokenLen(Buffered(raw[..j])) < minTokens
    decreases |raw| + 1 - n
  {
    if n > |raw| then None
    else if tokenLen(Buffered(raw[..n])) >= minTokens then Some(n)
    else FirstReach(raw, tokenLen, minTokens, n + 1)
  }

  /** Reference grouping: cut off the shortest prefix that reaches the threshold, repeat. */
  function Greedy(raw: seq<string>, tokenLen: TokenCounter, minTokens: int): Grouping
    decreases |raw|
  {
    match FirstReach(raw, tokenLen, minTokens, 1)
    case None => Grouping([], raw)
    case Some(n) =>
      var rest := Greedy(raw[n..], tokenLen, minTokens);
      Grouping([raw[..n]] + rest.groups, rest.tail)
  }

  /** The emitted chunks of a grouping: each group's buffer, stripped. */
  function Emit(groups: seq<seq<string>>): (r: seq<string>)
    ensures |r| == |groups|
    ensures forall k :: 0 <= k < |groups| ==> r[k] == PyStr.Strip(Buffered(groups[k]))
  {
    seq(|groups|, k requires 0 <= k < |groups| => PyStr.Strip(Buffered(groups[k])))
  }

  /** What `chunk_text(text, minTokens, maxTokens)` returns. */
  function Chunks(text: string, splitter: Splitter, tokenLen: TokenCounter, minTokens: int, maxTokens: int): seq<string>
  {
    Emit(Greedy(splitter(text, maxTokens, ChunkOverlap), tokenLen, minTokens).groups)
  }

  lemma {:induction false} ConcatCons(g: seq<string>, gs: seq<seq<string>>)
    ensures Concat([g] + gs) == g + Concat(gs)
    decreases |gs|
  {
    if gs == [] {
      assert [g] + gs == [g];
      assert Concat([g]) == Concat([]) + g;
    } else {
      var all := [g] + gs;
      assert all[..|all| - 1] == [g] + gs[..|gs| - 1];
      assert all[|all| - 1] == gs[|gs| - 1];
      ConcatCons(g, gs[..|gs| - 1]);
    }
  }

  lemma ConcatSnoc(gs: seq<seq<string>>, g: seq<string>)
    ensures Concat(gs + [g]) == Concat(gs) + g
  {
    assert (gs + [g])[..|gs|] == gs;
  }

  /** The first group of a greedy grouping is a prefix of the raw chunks, and the rest groups the remainder. */
  lemma GroupingCons(raw: seq<string>, tokenLen: TokenCounter, minTokens: int, p: Grouping)
    requires IsGreedyGrouping(raw, tokenLen, minTokens, p) && p.groups != []
    ensures var g := p.groups[0];
      && 1 <= |g| <= |raw| && raw[..|g|] == g
      && IsGreedyGrouping(raw[|g|..], tokenLen, minTokens, Grouping(p.groups[1..], p.tail))
  {
    var g := p.groups[0];
    assert p.groups == [g] + p.groups[1..];
    ConcatCons(g, p.groups[1..]);
    assert MinimalGroup(p.groups[0], tokenLen, minTokens);
    assert raw == g + (Concat(p.groups[1..]) + p.tail);
    assert forall k :: 0 <= k < |p.groups[1..]| ==> p.groups[1..][k] == p.groups[k + 1];
  }

  /** A minimal group that is a prefix of `raw` means `raw` does not start below threshold. */
  lemma MinimalPrefixNotBelow(raw: seq<string>, g: seq<string>, tokenLen: TokenCounter, minTokens: int)
    requires MinimalGroup(g, tokenLen, minTokens) && |g| <= |raw| && raw[..|g|] == g
    ensures !BelowThreshold(raw, tokenLen, minTokens)
  {
    assert tokenLen(Buffered(raw[..|g|])) >= minTokens;
  }

  /** Two minimal groups that are both prefixes of `raw` are the same group. */
  lemma MinimalPrefixUnique(raw: seq<string>, a: seq<string>, b: seq<string>, tokenLen: TokenCounter, minTokens: int)
    requires MinimalGroup(a, tokenLen, minTokens) && |a| <= |raw| && raw[..|a|] == a
    requires MinimalGroup(b, tokenLen, minTokens) && |b| <= |raw| && raw[..|b|] == b
    ensures a == b
  {
    if |a| < |b| {
      MinimalPrefixNotBelow(b[..|b| - 1], a, tokenLen, minTokens);
    } else if |b| < |a| {
      MinimalPrefixNotBelow(a[..|a| - 1], b, tokenLen, minTokens);
    }
  }

  /** If one greedy grouping has no groups, neither has any other: the raw chunks never reach the threshold. */
  lemma NoGroupsAlike(raw: seq<string>, tokenLen: TokenCounter, minTokens: int, p: Grouping, q: Grouping)
    requires IsGreedyGrouping(raw, tokenLen, minTokens, p) && p.groups == []
    requires IsGreedyGrouping(raw, tokenLen, minTokens, q)
    ensures q.groups == []
  {
    if q.groups != [] {
      assert Concat(p.groups) == [] && p.tail == raw;
      assert BelowThreshold(raw, tokenLen, minTokens);
      GroupingCons(raw, tokenLen, minTokens, q);
      MinimalPrefixNotBelow(raw, q.groups[0], tokenLen, minTokens);
    }
  }

  /** At most one greedy grouping exists for given raw chunks, tokenizer and threshold. */
  lemma {:induction false} GroupingUnique(raw: seq<string>, tokenLen: TokenCounter, minTokens: int, p: Grouping, q: Grouping)
    requires IsGreedyGrouping(raw, tokenLen, minTokens, p)
    requires IsGreedyGrouping(raw, tokenLen, minTokens, q)
    ensures p == q
    decreases |raw|
  {
    if p.groups == [] || q.groups == [] {
      if p.groups == [] {
        NoGroupsAlike(raw, tokenLen, minTokens, p, q);
      } else {
        NoGroupsAlike(raw, tokenLen, minTokens, q, p);
      }
      assert Concat(p.groups) == [] && Concat(q.groups) == [];
      assert p.tail == raw && q.tail == raw;
    } else {
      GroupingCons(raw, tokenLen, minTokens, p);
      GroupingCons(raw, tokenLen, minTokens, q);
      var a, b := p.groups[0], q.groups[0];
      assert MinimalGroup(a, tokenLen, minTokens) && MinimalGroup(b, tokenLen, minTokens);
      MinimalPrefixUnique(raw, a, b, tokenLen, minTokens);
      GroupingUnique(raw[|a|..], tokenLen, minTokens, Grouping(p.groups[1..], p.tail), Grouping(q.groups[1..], q.tail));
      assert p.groups == [a] + p.groups[1..];
      assert q.groups == [b] + q.groups[1..];
    }
  }

  /** Prefixes measured one by one below threshold make a below-threshold prefix. */
  lemma BelowPrefix(raw: seq<string>, n: nat, tokenLen: TokenCounter, minTokens: int)
    requires n <= |raw|
    requires forall j :: 1 <= j <= n ==> tokenLen(Buffered(raw[..j])) < minTokens
    ensures BelowThreshold(raw[..n], tokenLen, minTokens)
  {
    forall j | 1 <= j <= n
      ensures tokenLen(Buffered(raw[..n][..j])) < minTokens
    {
      assert raw[..n][..j] == raw[..j];
    }
  }

  /** Appending a raw chunk: the buffer either stays below threshold or closes a minimal group. */
  lemma BelowExtend(t: seq<string>, c: string, tokenLen: TokenCounter, minTokens: int)
    requires BelowThreshold(t, tokenLen, minTokens)
    ensures Buffered(t + [c]) == Buffered(t) + c + " "
    ensures tokenLen(Buffered(t + [c])) < minTokens ==> BelowThreshold(t + [c], tokenLen, minTokens)
    ensures tokenLen(Buffered(t + [c])) >= minTokens ==> MinimalGroup(t + [c], tokenLen, minTokens)
  {
    var t' := t + [c];
    assert t'[..|t'| - 1] == t;
    forall j | 1 <= j <= |t|
      ensures tokenLen(Buffered(t'[..j])) < minTokens
    {
      assert t'[..j] == t[..j];
    }
    assert t'[..|t'|] == t';
  }

  /** One iteration of the accumulation loop keeps the grouping greedy. */
  lemma GroupingStep(raw: seq<string>, i: nat, start: nat, groups: seq<seq<string>>, tokenLen: TokenCounter, minTokens: int)
    requires start <= i < |raw|
    requires IsGreedyGrouping(raw[..i], tokenLen, minTokens, Grouping(groups, raw[start..i]))
    ensures Buffered(raw[start..i + 1]) == Buffered(raw[start..i]) + raw[i] + " "
    ensures tokenLen(Buffered(raw[start..i + 1])) >= minTokens ==>
      IsGreedyGrouping(raw[..i + 1], tokenLen, minTokens, Grouping(groups + [raw[start..i + 1]], []))
    ensures tokenLen(Buffered(raw[start..i + 1])) < minTokens ==>
      IsGreedyGrouping(raw[..i + 1], tokenLen, minTokens, Grouping(groups, raw[start..i + 1]))
  {
    var t := raw[start..i];
    assert raw[start..i + 1] == t + [raw[i]];
    assert raw[..i + 1] == raw[..i] + [raw[i]];
    BelowExtend(t, raw[i], tokenLen, minTokens);
    ConcatSnoc(groups, t + [raw[i]]);
    var gs := groups + [t + [raw[i]]];
    assert forall k :: 0 <= k < |groups| ==> gs[k] == groups[k];
  }

  /** A minimal first group in front of a greedy grouping of the remainder. */
  lemma GroupingConsIntro(raw: seq<string>, n: nat, rest: Grouping, tokenLen: TokenCounter, minTokens: int)
    requires 1 <= n <= |raw|
    requires MinimalGroup(raw[..n], tokenLen, minTokens)
    requires IsGreedyGrouping(raw[n..], tokenLen, minTokens, rest)
    ensures IsGreedyGrouping(raw, tokenLen, minTokens, Grouping([raw[..n]] + rest.groups, rest.tail))
  {
    var g := raw[..n];
    var gs := [g] + rest.groups;
    ConcatCons(g, rest.groups);
    assert raw[..n] + raw[n..] == raw;
    assert forall k :: 1 <= k < |gs| ==> gs[k] == rest.groups[k - 1];
  }

  /** The reference grouping is a greedy grouping. */
  lemma {:induction false} GreedyIsGreedyGrouping(raw: seq<string>, tokenLen: TokenCounter, minTokens: int)
    ensures IsGreedyGrouping(raw, tokenLen, minTokens, Greedy(raw, tokenLen, minTokens))
    decreases |raw|
  {
    var first := FirstReach(raw, tokenLen, minTokens, 1);
    if first.None? {
      assert Greedy(raw, tokenLen, minTokens) == Grouping([], raw);
      BelowPrefix(raw, |raw|, tokenLen, minTokens);
      assert raw[..|raw|] == raw;
    } else {
      var n := first.value;
      var rest := Greedy(raw[n..], tokenLen, minTokens);
      assert Greedy(raw, tokenLen, minTokens) == Grouping([raw[..n]] + rest.groups, rest.tail);
      GreedyIsGreedyGrouping(raw[n..], tokenLen, minTokens);
      BelowPrefix(raw, n - 1, tokenLen, minTokens);
      assert raw[..n][..n - 1] == raw[..n - 1];
      GroupingConsIntro(raw, n, rest, tokenLen, minTokens);
    }
  }

  /** A greedy grouping is the reference one. */
  lemma GreedyGroupingIsGreedy(raw: seq<string>, tokenLen: TokenCounter, minTokens: int, p: Grouping)
    requires IsGreedyGrouping(raw, tokenLen, minTokens, p)
    ensures p == Greedy(raw, tokenLen, minTokens)
  {
    GreedyIsGreedyGrouping(raw, tokenLen, minTokens);
    GroupingUnique(raw, tokenLen, minTokens, p, Greedy(raw, tokenLen, minTokens));
  }

  /**
   * What the check after the loop sees: a leftover buffer is either empty or
   * was measured below the threshold, so it is never emitted.
   */
  lemma LeftoverNeverEmitted(tail: seq<string>, tokenLen: TokenCounter, minTokens: int)
    requires BelowThreshold(tail, tokenLen, minTokens)
    ensures Buffered(tail) == [] <==> tail == []
    ensures !(Buffered(tail) != [] && tokenLen(Buffered(tail)) >= minTokens)
  {
    if tail != [] {
      assert tail[..|tail|] == tail;
    }
  }

  /** Every group holds at least one raw chunk, so there are no more groups than raw chunks. */
  lemma {:induction false} GroupCountBound(gs: seq<seq<string>>, tokenLen: TokenCounter, minTokens: int)
    requires forall k :: 0 <= k < |gs| ==> MinimalGroup(gs[k], tokenLen, minTokens)
    ensures |gs| <= |Concat(gs)|
    decreases |gs|
  {
    if gs != [] {
      var init := gs[..|gs| - 1];
      assert forall k :: 0 <= k < |init| ==> init[k] == gs[k];
      GroupCountBound(init, tokenLen, minTokens);
      assert MinimalGroup(gs[|gs| - 1], tokenLen, minTokens);
    }
  }

  lemma EmitSnoc(groups: seq<seq<string>>, g: seq<string>)
    ensures Emit(groups + [g]) == Emit(groups) + [PyStr.Strip(Buffered(g))]
  {
    var gs := groups + [g];
    assert forall k :: 0 <= k < |groups| ==> gs[k] == groups[k];
  }

  /**
   * When the loop ends, its groups are the reference grouping's and the
   * leftover buffer, if any, was last measured below the threshold.
   */
  lemma LoopExit(raw: seq<string>, start: nat, groups: seq<seq<string>>, tokenLen: TokenCounter, minTokens: int)
    requires start <= |raw|
    requires IsGreedyGrouping(raw[..|raw|], tokenLen, minTokens, Grouping(groups, raw[start..|raw|]))
    ensures groups == Greedy(raw, tokenLen, minTokens).groups
    ensures !(Buffered(raw[start..|raw|]) != [] && tokenLen(Buffered(raw[start..|raw|])) >= minTokens)
  {
    assert raw[..|raw|] == raw && raw[start..|raw|] == raw[start..];
    GreedyGroupingIsGreedy(raw, tokenLen, minTokens, Grouping(groups, raw[start..]));
    LeftoverNeverEmitted(raw[start..], tokenLen, minTokens);
  }

  /**
   * `chunk_text`. The result is the reference grouping's emitted chunks; in
   * particular an empty split gives no chunks.
   */
  method ChunkText(text: string, splitter: Splitter, tokenLen: TokenCounter, minTokens: int, maxTokens: int)
    returns (finalChunks: seq<string>)
    ensures finalChunks == Chunks(text, splitter, tokenLen, minTokens, maxTokens)
    ensures splitter(text, maxTokens, ChunkOverlap) == [] ==> finalChunks == []
  {
    var rawChunks := splitter(text, maxTokens, ChunkOverlap);
    finalChunks := [];
    var buffer := "";
    ghost var groups: seq<seq<string>> := [];
    ghost var start := 0;
    for i := 0 to |rawChunks|
      invariant 0 <= start <= i
      invariant buffer == Buffered(rawChunks[start..i])
      invariant IsGreedyGrouping(rawChunks[..i], tokenLen, minTokens, Grouping(groups, rawChunks[start..i]))
      invariant finalChunks == Emit(groups)
    {
      GroupingStep(rawChunks, i, start, groups, tokenLen, minTokens);
      buffer := buffer + rawChunks[i] + " ";
      var tokenCount := tokenLen(buffer);
      if tokenCount >= minTokens {
        EmitSnoc(groups, rawChunks[start..i + 1]);
        finalChunks := finalChunks + [PyStr.Strip(buffer)];
        buffer := "";
        groups := groups + [rawChunks[start..i + 1]];
        start := i + 1;
      }
    }
    LoopExit(rawChunks, start, groups, tokenLen, minTokens);
    // Never taken: the leftover buffer was last measured below minTokens.
    if buffer != "" && tokenLen(buffer) >= minTokens {
      finalChunks := finalChunks + [PyStr.Strip(buffer)];
    }
  }

  /**
   * The emitted chunks, in order, are the stripped buffers of consecutive
   * minimal groups covering a prefix of the raw chunks; the uncovered tail
   * never reached the threshold; there are no more chunks than raw chunks.
   */
  lemma ChunksAreGreedyGroups(text: string, splitter: Splitter, tokenLen: TokenCounter, minTokens: int, maxTokens: int)
    ensures var raw := splitter(text, maxTokens, ChunkOverlap);
      var p := Greedy(raw, tokenLen, minTokens);
      var out := Chunks(text, splitter, tokenLen, minTokens, maxTokens);
      && Concat(p.groups) + p.tail == raw
      && |out| == |p.groups| <= |raw|
      && (forall k :: 0 <= k < |out| ==>
            out[k] == PyStr.Strip(Buffered(p.groups[k])) && tokenLen(Buffered(p.groups[k])) >= minTokens)
      && (forall k, j :: 0 <= k < |out| && 1 <= j < |p.groups[k]| ==>
            tokenLen(Buffered(p.groups[k][..j])) < minTokens)
      && (p.tail == [] || tokenLen(Buffered(p.tail)) < minTokens)
  {
    var raw := splitter(text, maxTokens, ChunkOverlap);
    var p := Greedy(raw, tokenLen, minTokens);
    GreedyIsGreedyGrouping(raw, tokenLen, minTokens);
    GroupCountBound(p.groups, tokenLen, minTokens);
    LeftoverNeverEmitted(p.tail, tokenLen, minTokens);
    forall k, j | 0 <= k < |p.groups| && 1 <= j < |p.groups[k]|
      ensures tokenLen(Buffered(p.groups[k][..j])) < minTokens
    {
      var g := p.groups[k];
      assert MinimalGroup(g, tokenLen, minTokens);
      assert g[..|g| - 1][..j] == g[..j];
    }
  }

  /** With a threshold of zero or less, every raw chunk is emitted on its own. */
  lemma {:induction false} NonPositiveThresholdEmitsEach(raw: seq<string>, tokenLen: TokenCounter, minTokens: int)
    requires minTokens <= 0
    ensures Greedy(raw, tokenLen, minTokens) == Grouping(seq(|raw|, k requires 0 <= k < |raw| => [raw[k]]), [])
    decreases |raw|
  {
    if raw != [] {
      assert raw[..1] == [raw[0]];
      NonPositiveThresholdEmitsEach(raw[1..], tokenLen, minTokens);
    }
  }
}
