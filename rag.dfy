/** The context assembler of retrieval-augmented generation
    (`build_rag_context` in app/core/services/embeddings_service.py): the
    five best search hits are turned into source blocks and packed greedily
    under a character budget, behind a fixed header. */
module Rag {
  import opened Text
  import opened Knowledge
  import opened Embeddings
  import opened Ranking

  /** The first part of every non-empty context. */
  const ContextHeader: string := "Relevant information from knowledge base:\n"

  /** The separator `"\n".join` puts between the parts. */
  const PartSeparator: string := "\n"

  /** The search parameters `build_rag_context` uses. */
  const RagTopK: int := 5
  const RagMinSimilarity: real := 0.7

  /** The block for one hit: its file name, then its chunk. */
  function SourceBlock(m: Match): string {
    "\n[Source: " + m.fileName + "]\n" + m.chunkText + "\n"
  }

  function Blocks(results: seq<Match>): (r: seq<string>)
    ensures |r| == |results|
    ensures forall k :: 0 <= k < |r| ==> r[k] == SourceBlock(results[k])
  {
    if results == [] then [] else [SourceBlock(results[0])] + Blocks(results[1..])
  }

  /** How many leading blocks the loop appends, starting from `used`
      characters: it stops at the first block that would go past `max`. */
  function FittingCount(blocks: seq<string>, used: int, max: int): (n: nat)
    ensures n <= |blocks|
  {
    if blocks == [] || used + |blocks[0]| > max then 0
    else 1 + FittingCount(blocks[1..], used + |blocks[0]|, max)
  }

  /** The context for the ranked hits `results`. */
  function Context(results: seq<Match>, max: int): string
  {
    if results == [] then []
    else
      var blocks := Blocks(results);
      Join([ContextHeader] + blocks[..FittingCount(blocks, |ContextHeader|, max)], PartSeparator)
  }

  /** `build_rag_context`: search with `top_k = 5` and the default threshold,
      then append blocks while the running length stays within `max_context`. */
  method BuildRagContext(query: string, botId: int, maxContext: int,
                         files: seq<FileRecord>, api: EmbeddingsApi, scorer: Scorer)
    returns (context: string)
    ensures context == Context(SearchResults(query, botId, RagTopK, RagMinSimilarity, files, api, scorer), maxContext)
  {
    var results := SemanticSearch(query, botId, RagTopK, RagMinSimilarity, files, api, scorer);
    context := PackContext(results, maxContext);
  }

  /** The packing loop of `build_rag_context` over the ranked hits. */
  method PackContext(results: seq<Match>, maxContext: int) returns (context: string)
    ensures context == Context(results, maxContext)
  {
    if results == [] {
      return "";
    }
    ghost var blocks := Blocks(results);
    var parts := [ContextHeader];
    var currentLength := |ContextHeader|;
    var i := 0;
    while i < |results|
      invariant 0 <= i <= |results|
      invariant parts == [ContextHeader] + blocks[..i]
      invariant currentLength == |ContextHeader| + |Concat(blocks[..i])|
      invariant FittingCount(blocks, |ContextHeader|, maxContext)
             == i + FittingCount(blocks[i..], currentLength, maxContext)
    {
      var source := SourceBlock(results[i]);
      assert source == blocks[i] == blocks[i..][0];
      if currentLength + |source| > maxContext {
        break;
      }
      assert blocks[i..][1..] == blocks[i + 1..];
      assert blocks[..i + 1] == blocks[..i] + [source];
      ConcatSnoc(blocks[..i], source);
      parts := parts + [source];
      currentLength := currentLength + |source|;
      i := i + 1;
    }
    assert i == FittingCount(blocks, |ContextHeader|, maxContext);
    return Join(parts, PartSeparator);
  }

  // ---------------------------------------------------------------------------
  // Properties of build_rag_context

  /** The greedy count stops at the first block that does not fit: the blocks
      taken fit together (when there is at least one), and the next one
      would not. */
  lemma {:induction false} FittingCountGreedy(blocks: seq<string>, used: int, max: int)
    ensures var n := FittingCount(blocks, used, max);
      && (n > 0 ==> used + |Concat(blocks[..n])| <= max)
      && (n < |blocks| ==> used + |Concat(blocks[..n])| + |blocks[n]| > max)
    decreases |blocks|
  {
    var n := FittingCount(blocks, used, max);
    if n > 0 {
      FittingCountGreedy(blocks[1..], used + |blocks[0]|, max);
      assert blocks[..n] == [blocks[0]] + blocks[1..][..n - 1];
      assert blocks[..n][1..] == blocks[1..][..n - 1];
      if n < |blocks| {
        assert blocks[n] == blocks[1..][n - 1];
      }
    } else {
      assert blocks[..0] == [];
    }
  }

  /** The joined parts begin with the header, so the context is empty
      exactly when the search found nothing. */
  lemma ContextEmptyIff(results: seq<Match>, max: int)
    ensures Context(results, max) == [] <==> results == []
  {
    if results != [] {
      var blocks := Blocks(results);
      var parts := [ContextHeader] + blocks[..FittingCount(blocks, |ContextHeader|, max)];
      JoinLength(parts, PartSeparator);
      assert parts[1..] == blocks[..FittingCount(blocks, |ContextHeader|, max)];
      assert |Concat(parts)| >= |ContextHeader|;
    }
  }

  /** A non-empty context is the header followed by the first `n` blocks,
      where the header and those blocks fit in `max` (unless `n = 0`) and the
      next block would not; its length is the header's, the blocks' and one
      uncounted separator per block. */
  lemma ContextPacking(results: seq<Match>, max: int)
    requires results != []
    ensures var blocks := Blocks(results);
      var n := FittingCount(blocks, |ContextHeader|, max);
      var used := |ContextHeader| + |Concat(blocks[..n])|;
      && Context(results, max) == Join([ContextHeader] + blocks[..n], PartSeparator)
      && (n > 0 ==> used <= max)
      && (n < |blocks| ==> used + |blocks[n]| > max)
      && |Context(results, max)| == used + n
  {
    var blocks := Blocks(results);
    var n := FittingCount(blocks, |ContextHeader|, max);
    var parts := [ContextHeader] + blocks[..n];
    FittingCountGreedy(blocks, |ContextHeader|, max);
    JoinLength(parts, PartSeparator);
    assert parts[1..] == blocks[..n];
  }

  /** `build_rag_context` yields `""` exactly when the search finds nothing,
      and otherwise packs at most five blocks under the header. */
  lemma RagContextOfSearch(query: string, botId: int, max: int,
                           files: seq<FileRecord>, api: EmbeddingsApi, scorer: Scorer)
    ensures var r := SearchResults(query, botId, RagTopK, RagMinSimilarity, files, api, scorer);
      && (Context(r, max) == [] <==> r == [])
      && FittingCount(Blocks(r), |ContextHeader|, max) <= RagTopK
  {
    var r := SearchResults(query, botId, RagTopK, RagMinSimilarity, files, api, scorer);
    SearchSound(query, botId, RagTopK, RagMinSimilarity, files, api, scorer);
    ContextEmptyIff(r, max);
  }
}
