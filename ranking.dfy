/** The ranking half of `semantic_search` (app/core/services/embeddings_service.py):
    score every stored chunk of the bot's ready files against the query
    vector, keep the ones at or above the threshold, sort them by score
    (descending, ties in scan order) and keep the first `top_k`. */
module Ranking {
  import opened Wrappers
  import opened Knowledge
  import opened Embeddings

  /** One search hit: the dictionary `semantic_search` appends. */
  datatype Match = Match(fileId: int, fileName: string, chunkIndex: nat, chunkText: string, similarity: real)

  // ---------------------------------------------------------------------------
  // Which files and which chunks are scanned

  /** The database filter: the bot's files in status `ready` with an
      embeddings value. */
  predicate Queried(f: FileRecord, botId: int) {
    f.botId == botId && f.status == Ready && f.embeddings.Some?
  }

  /** The loop's own guard: skip a file whose bundle has no `vectors` entry
      (an empty bundle has none). */
  predicate HasVectors(f: FileRecord) {
    f.embeddings.Some? && f.embeddings.value.vectors.Some?
  }

  /** A file whose chunks are scored. */
  predicate Scanned(f: FileRecord, botId: int) {
    Queried(f, botId) && HasVectors(f)
  }

  /** `file.embeddings.get('chunks', [])`. */
  function FileChunks(f: FileRecord): seq<string>
    requires f.embeddings.Some?
  {
    match f.embeddings.value.chunks
    case Some(cs) => cs
    case None => []
  }

  /** The stored vectors of a scanned file. */
  function FileVectors(f: FileRecord): seq<Vector>
    requires HasVectors(f)
  {
    f.embeddings.value.vectors.value
  }

  /** `zip(chunks, vectors)` stops at the shorter list. */
  function PairCount(f: FileRecord): nat
    requires HasVectors(f)
  {
    if |FileChunks(f)| < |FileVectors(f)| then |FileChunks(f)| else |FileVectors(f)|
  }

  /** The hits among the first `n` chunk/vector pairs of a scanned file, in
      chunk order; the first score that raises aborts the search. */
  function FileMatches(q: Vector, f: FileRecord, minSim: real, scorer: Scorer, n: nat): Result<seq<Match>, string>
    requires HasVectors(f) && n <= PairCount(f)
  {
    if n == 0 then Success([])
    else
      match FileMatches(q, f, minSim, scorer, n - 1)
      case Failure(e) => Failure(e)
      case Success(ms) =>
        match CosineSimilarity(q, FileVectors(f)[n - 1], scorer)
        case Failure(e) => Failure(e)
        case Success(s) =>
          Success(if s >= minSim then ms + [Match(f.id, f.name, n - 1, FileChunks(f)[n - 1], s)] else ms)
  }

  /** The hits of the first `n` files, in scan order: file order, then chunk
      index. */
  function AllMatches(q: Vector, files: seq<FileRecord>, botId: int, minSim: real, scorer: Scorer, n: nat): Result<seq<Match>, string>
    requires n <= |files|
  {
    if n == 0 then Success([])
    else
      match AllMatches(q, files, botId, minSim, scorer, n - 1)
      case Failure(e) => Failure(e)
      case Success(ms) =>
        var f := files[n - 1];
        if !Scanned(f, botId) then Success(ms)
        else
          match FileMatches(q, f, minSim, scorer, PairCount(f))
          case Failure(e) => Failure(e)
          case Success(fm) => Success(ms + fm)
  }

  // ---------------------------------------------------------------------------
  // Stable descending sort and the top-k slice

  /** Scores never increase along `s`. */
  predicate Descending(s: seq<Match>) {
    forall i, j :: 0 <= i < j < |s| ==> s[i].similarity >= s[j].similarity
  }

  /** Insert `x` into a descending `s` after every element scoring at least as
      much: a later element never overtakes an earlier one of equal score. */
  function Insert(s: seq<Match>, x: Match): (r: seq<Match>)
    ensures |r| == |s| + 1
  {
    if s == [] then [x]
    else if s[0].similarity >= x.similarity then [s[0]] + Insert(s[1..], x)
    else [x] + s
  }

  /** `list.sort(key=similarity, reverse=True)`, which is stable. */
  function SortDesc(s: seq<Match>): (r: seq<Match>)
    ensures |r| == |s|
  {
    if s == [] then [] else Insert(SortDesc(s[..|s| - 1]), s[|s| - 1])
  }

  /** The elements of `s` that score exactly `v`, in order. */
  function WithScore(s: seq<Match>, v: real): seq<Match>
  {
    if s == [] then []
    else (if s[0].similarity == v then [s[0]] else []) + WithScore(s[1..], v)
  }

  /** Python's `s[:k]`: a negative `k` drops elements from the end. */
  function TakeTop(s: seq<Match>, k: int): (r: seq<Match>)
    ensures |r| <= |s| && r == s[..|r|]
    ensures k >= 0 ==> |r| == if k < |s| then k else |s|
    ensures k < 0 ==> |r| == if |s| + k > 0 then |s| + k else 0
  {
    if k >= 0 then (if k < |s| then s[..k] else s)
    else (if |s| + k > 0 then s[..|s| + k] else [])
  }

  lemma {:induction false} InsertPermutes(s: seq<Match>, x: Match)
    ensures multiset(Insert(s, x)) == multiset(s) + multiset{x}
  {
    if s != [] && s[0].similarity >= x.similarity {
      InsertPermutes(s[1..], x);
      assert s == [s[0]] + s[1..];
    }
  }

  /** Every score of `s` is at most `b`. */
  predicate Bounded(s: seq<Match>, b: real) {
    forall j :: 0 <= j < |s| ==> s[j].similarity <= b
  }

  lemma {:induction false} InsertBounded(s: seq<Match>, x: Match, b: real)
    requires Bounded(s, b) && x.similarity <= b
    ensures Bounded(Insert(s, x), b)
  {
    if s != [] && s[0].similarity >= x.similarity {
      InsertBounded(s[1..], x, b);
    }
  }

  lemma ConsDescending(h: Match, t: seq<Match>)
    requires Descending(t) && Bounded(t, h.similarity)
    ensures Descending([h] + t)
  {
    var r := [h] + t;
    forall i, j | 0 <= i < j < |r| ensures r[i].similarity >= r[j].similarity {
      assert r[j] == t[j - 1];
      if i > 0 {
        assert r[i] == t[i - 1];
      }
    }
  }

  lemma TailDescending(s: seq<Match>)
    requires Descending(s) && s != []
    ensures Descending(s[1..]) && Bounded(s[1..], s[0].similarity)
  {
    var tail := s[1..];
    forall i, j | 0 <= i < j < |tail| ensures tail[i].similarity >= tail[j].similarity {
      assert tail[i] == s[i + 1] && tail[j] == s[j + 1];
    }
    forall j | 0 <= j < |tail| ensures tail[j].similarity <= s[0].similarity {
      assert tail[j] == s[j + 1];
    }
  }

  lemma {:induction false} InsertDescending(s: seq<Match>, x: Match)
    requires Descending(s)
    ensures Descending(Insert(s, x))
  {
    if s == [] {
    } else if s[0].similarity >= x.similarity {
      TailDescending(s);
      InsertDescending(s[1..], x);
      InsertBounded(s[1..], x, s[0].similarity);
      ConsDescending(s[0], Insert(s[1..], x));
    } else {
      TailDescending(s);
      assert Bounded(s, x.similarity);
      ConsDescending(x, s);
    }
  }

  lemma {:induction false} SortDescDescending(s: seq<Match>)
    ensures Descending(SortDesc(s))
  {
    if s != [] {
      SortDescDescending(s[..|s| - 1]);
      InsertDescending(SortDesc(s[..|s| - 1]), s[|s| - 1]);
    }
  }

  lemma {:induction false} SortDescPermutes(s: seq<Match>)
    ensures multiset(SortDesc(s)) == multiset(s)
  {
    if s != [] {
      var init := s[..|s| - 1];
      SortDescPermutes(init);
      InsertPermutes(SortDesc(init), s[|s| - 1]);
      assert s == init + [s[|s| - 1]];
    }
  }

  /** The sort yields a descending permutation of its input. */
  lemma SortDescSorted(s: seq<Match>)
    ensures Descending(SortDesc(s))
    ensures multiset(SortDesc(s)) == multiset(s)
  {
    SortDescDescending(s);
    SortDescPermutes(s);
  }

  lemma {:induction false} WithScoreAppend(a: seq<Match>, b: seq<Match>, v: real)
    ensures WithScore(a + b, v) == WithScore(a, v) + WithScore(b, v)
  {
    if a == [] {
      assert a + b == b;
    } else {
      WithScoreAppend(a[1..], b, v);
      assert (a + b)[1..] == a[1..] + b;
      assert (a + b)[0] == a[0];
      var h := if a[0].similarity == v then [a[0]] else [];
      assert WithScore(a + b, v) == h + WithScore(a[1..] + b, v);
      assert WithScore(a, v) == h + WithScore(a[1..], v);
    }
  }

  lemma {:induction false} WithScoreBelow(s: seq<Match>, v: real)
    requires Descending(s) && (s == [] || s[0].similarity < v)
    ensures WithScore(s, v) == []
  {
    if s != [] {
      WithScoreBelow(s[1..], v);
    }
  }

  lemma {:induction false} InsertStable(s: seq<Match>, x: Match, v: real)
    requires Descending(s)
    ensures WithScore(Insert(s, x), v) == WithScore(s, v) + WithScore([x], v)
  {
    if s == [] {
    } else if s[0].similarity >= x.similarity {
      var tail := s[1..];
      TailDescending(s);
      InsertStable(tail, x, v);
      var t := Insert(tail, x);
      assert Insert(s, x) == [s[0]] + t;
      assert ([s[0]] + t)[1..] == t;
      var h := if s[0].similarity == v then [s[0]] else [];
      assert WithScore([s[0]] + t, v) == h + WithScore(t, v);
      assert WithScore(s, v) == h + WithScore(tail, v);
    } else {
      WithScoreBelow(s, x.similarity);
      assert Insert(s, x) == [x] + s;
      assert ([x] + s)[1..] == s;
    }
  }

  /** The sort is stable: the elements of any one score keep their input
      order. */
  lemma {:induction false} SortDescStable(s: seq<Match>, v: real)
    ensures WithScore(SortDesc(s), v) == WithScore(s, v)
  {
    if s != [] {
      var init := s[..|s| - 1];
      var x := s[|s| - 1];
      SortDescStable(init, v);
      SortDescDescending(init);
      InsertStable(SortDesc(init), x, v);
      assert s == init + [x];
      WithScoreAppend(init, [x], v);
    }
  }

  // ---------------------------------------------------------------------------
  // semantic_search

  /** The query vector: the first vector the provider returns for `[query]`;
      none when the provider fails or returns nothing (the `[0]` raises). */
  function QueryVector(query: string, api: EmbeddingsApi): Option<Vector>
  {
    match GenerateEmbeddings([query], DefaultProvider, api)
    case Failure(_) => None
    case Success(vs) => if vs == [] then None else Some(vs[0])
  }

  /** What `semantic_search` returns; every exception yields `[]`. */
  function SearchResults(query: string, botId: int, topK: int, minSim: real,
                         files: seq<FileRecord>, api: EmbeddingsApi, scorer: Scorer): seq<Match>
  {
    match QueryVector(query, api)
    case None => []
    case Some(q) =>
      match AllMatches(q, files, botId, minSim, scorer, |files|)
      case Failure(_) => []
      case Success(candidates) => TakeTop(SortDesc(candidates), topK)
  }

  /** `semantic_search` over the knowledge-base rows `files`, in the order the
      query returns them. */
  method SemanticSearch(query: string, botId: int, topK: int, minSim: real,
                        files: seq<FileRecord>, api: EmbeddingsApi, scorer: Scorer)
    returns (results: seq<Match>)
    ensures results == SearchResults(query, botId, topK, minSim, files, api, scorer)
  {
    var embedded := GenerateEmbeddings([query], DefaultProvider, api);
    if embedded.Failure? || embedded.value == [] {
      return [];
    }
    var q := embedded.value[0];
    results := [];
    var i := 0;
    while i < |files|
      invariant 0 <= i <= |files|
      invariant AllMatches(q, files, botId, minSim, scorer, i).Success?
      invariant AllMatches(q, files, botId, minSim, scorer, i).value == results
    {
      var file := files[i];
      if Scanned(file, botId) {
        var chunks := FileChunks(file);
        var vectors := FileVectors(file);
        ghost var before := results;
        var idx := 0;
        while idx < |chunks| && idx < |vectors|
          invariant 0 <= idx <= PairCount(file)
          invariant FileMatches(q, file, minSim, scorer, idx).Success?
          invariant results == before + FileMatches(q, file, minSim, scorer, idx).value
        {
          var similarity := CosineSimilarity(q, vectors[idx], scorer);
          if similarity.Failure? {
            FileFailureSticks(q, file, minSim, scorer, idx + 1, PairCount(file));
            AllFailureSticks(q, files, botId, minSim, scorer, i + 1, |files|);
            return [];
          }
          if similarity.value >= minSim {
            results := results + [Match(file.id, file.name, idx, chunks[idx], similarity.value)];
          }
          idx := idx + 1;
        }
      }
      i := i + 1;
    }
    results := SortDesc(results);
    results := TakeTop(results, topK);
  }

  lemma {:induction false} FileFailureSticks(q: Vector, f: FileRecord, minSim: real, scorer: Scorer, n: nat, m: nat)
    requires HasVectors(f) && n <= m <= PairCount(f)
    requires FileMatches(q, f, minSim, scorer, n).Failure?
    ensures FileMatches(q, f, minSim, scorer, m).Failure?
    decreases m - n
  {
    if n < m {
      FileFailureSticks(q, f, minSim, scorer, n + 1, m);
    }
  }

  lemma {:induction false} AllFailureSticks(q: Vector, files: seq<FileRecord>, botId: int, minSim: real, scorer: Scorer, n: nat, m: nat)
    requires n <= m <= |files|
    requires AllMatches(q, files, botId, minSim, scorer, n).Failure?
    ensures AllMatches(q, files, botId, minSim, scorer, m).Failure?
    decreases m - n
  {
    if n < m {
      AllFailureSticks(q, files, botId, minSim, scorer, n + 1, m);
    }
  }

  // ---------------------------------------------------------------------------
  // Which hits are produced

  /** `m` is the hit for chunk `m.chunkIndex` of the scanned file `f`: an
      index within both lists, the file's id and name, that chunk's text and
      its score against `q`. */
  predicate FromFile(m: Match, f: FileRecord, q: Vector, scorer: Scorer)
    requires HasVectors(f)
  {
    && m.chunkIndex < PairCount(f)
    && m.fileId == f.id && m.fileName == f.name
    && m.chunkText == FileChunks(f)[m.chunkIndex]
    && CosineSimilarity(q, FileVectors(f)[m.chunkIndex], scorer) == Success(m.similarity)
  }

  /** `m` comes from one of the first `n` files, which is scanned. */
  predicate Sourced(m: Match, files: seq<FileRecord>, botId: int, q: Vector, scorer: Scorer, n: nat)
    requires n <= |files|
  {
    exists j :: 0 <= j < n && Scanned(files[j], botId) && FromFile(m, files[j], q, scorer)
  }

  /** The hits of one file are exactly its scored pairs at or above the
      threshold, and they come in chunk order. */
  lemma {:induction false} FileMatchesExact(q: Vector, f: FileRecord, minSim: real, scorer: Scorer, n: nat)
    requires HasVectors(f) && n <= PairCount(f)
    requires FileMatches(q, f, minSim, scorer, n).Success?
    ensures var ms := FileMatches(q, f, minSim, scorer, n).value;
      && (forall k :: 0 <= k < |ms| ==>
            FromFile(ms[k], f, q, scorer) && ms[k].similarity >= minSim && ms[k].chunkIndex < n)
      && (forall k, l :: 0 <= k < l < |ms| ==> ms[k].chunkIndex < ms[l].chunkIndex)
      && (forall idx :: 0 <= idx < n ==>
            var s := CosineSimilarity(q, FileVectors(f)[idx], scorer);
            s.Success? && (s.value >= minSim ==> Match(f.id, f.name, idx, FileChunks(f)[idx], s.value) in ms))
  {
    if n > 0 {
      FileMatchesExact(q, f, minSim, scorer, n - 1);
    }
  }

  /** Every hit comes from one of the scanned files. */
  lemma {:induction false} AllMatchesSourced(q: Vector, files: seq<FileRecord>, botId: int, minSim: real, scorer: Scorer, n: nat)
    requires n <= |files|
    requires AllMatches(q, files, botId, minSim, scorer, n).Success?
    ensures var ms := AllMatches(q, files, botId, minSim, scorer, n).value;
      forall k :: 0 <= k < |ms| ==> ms[k].similarity >= minSim && Sourced(ms[k], files, botId, q, scorer, n)
  {
    if n > 0 {
      AllMatchesSourced(q, files, botId, minSim, scorer, n - 1);
      var prev := AllMatches(q, files, botId, minSim, scorer, n - 1).value;
      var ms := AllMatches(q, files, botId, minSim, scorer, n).value;
      var f := files[n - 1];
      forall k | 0 <= k < |prev| ensures Sourced(prev[k], files, botId, q, scorer, n) {
        var j :| 0 <= j < n - 1 && Scanned(files[j], botId) && FromFile(prev[k], files[j], q, scorer);
      }
      if Scanned(f, botId) {
        FileMatchesExact(q, f, minSim, scorer, PairCount(f));
        var fm := FileMatches(q, f, minSim, scorer, PairCount(f)).value;
        assert ms == prev + fm;
        forall k | |prev| <= k < |ms| ensures ms[k].similarity >= minSim && Sourced(ms[k], files, botId, q, scorer, n) {
          assert ms[k] == fm[k - |prev|];
        }
      }
    }
  }

  /** Every scored pair of a scanned file at or above the threshold is a
      hit. */
  lemma {:induction false} AllMatchesComplete(q: Vector, files: seq<FileRecord>, botId: int, minSim: real, scorer: Scorer, n: nat)
    requires n <= |files|
    requires AllMatches(q, files, botId, minSim, scorer, n).Success?
    ensures var ms := AllMatches(q, files, botId, minSim, scorer, n).value;
      forall j, idx :: 0 <= j < n && Scanned(files[j], botId) && 0 <= idx < PairCount(files[j]) ==>
        var s := CosineSimilarity(q, FileVectors(files[j])[idx], scorer);
        s.Success? && (s.value >= minSim ==>
          Match(files[j].id, files[j].name, idx, FileChunks(files[j])[idx], s.value) in ms)
  {
    if n > 0 {
      AllMatchesComplete(q, files, botId, minSim, scorer, n - 1);
      var prev := AllMatches(q, files, botId, minSim, scorer, n - 1).value;
      var ms := AllMatches(q, files, botId, minSim, scorer, n).value;
      var f := files[n - 1];
      if Scanned(f, botId) {
        FileMatchesExact(q, f, minSim, scorer, PairCount(f));
        var fm := FileMatches(q, f, minSim, scorer, PairCount(f)).value;
        assert ms == prev + fm;
        forall j, idx | 0 <= j < n && Scanned(files[j], botId) && 0 <= idx < PairCount(files[j])
          ensures var s := CosineSimilarity(q, FileVectors(files[j])[idx], scorer);
            s.Success? && (s.value >= minSim ==>
              Match(files[j].id, files[j].name, idx, FileChunks(files[j])[idx], s.value) in ms)
        {
          var s := CosineSimilarity(q, FileVectors(files[j])[idx], scorer);
          var x := Match(files[j].id, files[j].name, idx, FileChunks(files[j])[idx], s.value);
          if j < n - 1 {
            if s.value >= minSim { assert x in prev; }
          } else {
            if s.value >= minSim { assert x in fm; }
          }
        }
      }
    }
  }

  /** Every hit comes from a scanned file, and every scored pair of a scanned
      file at or above the threshold is a hit. */
  lemma AllMatchesExact(q: Vector, files: seq<FileRecord>, botId: int, minSim: real, scorer: Scorer, n: nat)
    requires n <= |files|
    requires AllMatches(q, files, botId, minSim, scorer, n).Success?
    ensures var ms := AllMatches(q, files, botId, minSim, scorer, n).value;
      && (forall k :: 0 <= k < |ms| ==> ms[k].similarity >= minSim && Sourced(ms[k], files, botId, q, scorer, n))
      && (forall j, idx :: 0 <= j < n && Scanned(files[j], botId) && 0 <= idx < PairCount(files[j]) ==>
            var s := CosineSimilarity(q, FileVectors(files[j])[idx], scorer);
            s.Success? && (s.value >= minSim ==>
              Match(files[j].id, files[j].name, idx, FileChunks(files[j])[idx], s.value) in ms))
  {
    AllMatchesSourced(q, files, botId, minSim, scorer, n);
    AllMatchesComplete(q, files, botId, minSim, scorer, n);
  }

  // ---------------------------------------------------------------------------
  // Properties of semantic_search

  /** Every result scores at least `min_similarity` and is a chunk of a
      `ready` file of the bot with a `vectors` entry, at an index below both
      list lengths; results never increase in score, and there are at most
      `top_k` of them. */
  lemma SearchSound(query: string, botId: int, topK: int, minSim: real,
                    files: seq<FileRecord>, api: EmbeddingsApi, scorer: Scorer)
    ensures var r := SearchResults(query, botId, topK, minSim, files, api, scorer);
      && Descending(r)
      && (topK >= 0 ==> |r| <= topK)
      && (forall k :: 0 <= k < |r| ==>
            && r[k].similarity >= minSim
            && Sourced(r[k], files, botId, QueryVector(query, api).value, scorer, |files|))
  {
    var r := SearchResults(query, botId, topK, minSim, files, api, scorer);
    if r != [] {
      var q := QueryVector(query, api).value;
      var c := AllMatches(q, files, botId, minSim, scorer, |files|).value;
      AllMatchesExact(q, files, botId, minSim, scorer, |files|);
      var sorted := SortDesc(c);
      SortDescSorted(c);
      assert r == sorted[..|r|];
      forall k | 0 <= k < |r|
        ensures r[k].similarity >= minSim && Sourced(r[k], files, botId, q, scorer, |files|)
      {
        assert r[k] == sorted[k];
        assert sorted[k] in multiset(c);
        var t :| 0 <= t < |c| && c[t] == sorted[k];
      }
    }
  }

  /** In a descending sequence, nothing after position `n` outscores
      anything before it. */
  lemma PrefixBeatsRest(sorted: seq<Match>, n: nat)
    requires Descending(sorted) && n <= |sorted|
    ensures forall x, y :: x in sorted[n..] && y in sorted[..n] ==> x.similarity <= y.similarity
  {
    forall x, y | x in sorted[n..] && y in sorted[..n] ensures x.similarity <= y.similarity {
      var a :| 0 <= a < |sorted[n..]| && sorted[n..][a] == x;
      var b :| 0 <= b < |sorted[..n]| && sorted[..n][b] == y;
      assert sorted[n + a] == x && sorted[b] == y;
    }
  }

  lemma PrefixRemainder(s: seq<Match>, n: nat)
    requires n <= |s|
    ensures multiset(s[..n]) <= multiset(s)
    ensures multiset(s) - multiset(s[..n]) == multiset(s[n..])
  {
    assert s == s[..n] + s[n..];
  }

  /** With `top_k >= 0` the search keeps `min(top_k, hits)` results; every
      hit left out scores no more than any result kept. */
  lemma SearchKeepsBest(query: string, botId: int, topK: int, minSim: real,
                        files: seq<FileRecord>, api: EmbeddingsApi, scorer: Scorer)
    requires QueryVector(query, api).Some?
    requires AllMatches(QueryVector(query, api).value, files, botId, minSim, scorer, |files|).Success?
    ensures var c := AllMatches(QueryVector(query, api).value, files, botId, minSim, scorer, |files|).value;
      var r := SearchResults(query, botId, topK, minSim, files, api, scorer);
      && (topK >= 0 ==> |r| == if topK < |c| then topK else |c|)
      && multiset(r) <= multiset(c)
      && (forall x: Match, y: Match :: x in multiset(c) - multiset(r) && y in r ==> x.similarity <= y.similarity)
  {
    var c := AllMatches(QueryVector(query, api).value, files, botId, minSim, scorer, |files|).value;
    var sorted := SortDesc(c);
    var r := TakeTop(sorted, topK);
    assert r == SearchResults(query, botId, topK, minSim, files, api, scorer);
    SortDescSorted(c);
    var k := |r|;
    assert r == sorted[..k];
    PrefixRemainder(sorted, k);
    PrefixBeatsRest(sorted, k);
    forall x: Match, y: Match | x in multiset(c) - multiset(r) && y in r ensures x.similarity <= y.similarity {
      assert x in multiset(sorted[k..]);
      assert x in sorted[k..];
    }
  }

  /** Results of equal score keep scan order (file order, then chunk index):
      for every score, the results with that score are the first hits with
      that score, in the order they were scanned. */
  lemma SearchTiesInScanOrder(query: string, botId: int, topK: int, minSim: real,
                              files: seq<FileRecord>, api: EmbeddingsApi, scorer: Scorer, v: real)
    requires QueryVector(query, api).Some?
    requires AllMatches(QueryVector(query, api).value, files, botId, minSim, scorer, |files|).Success?
    ensures var c := AllMatches(QueryVector(query, api).value, files, botId, minSim, scorer, |files|).value;
      var r := SearchResults(query, botId, topK, minSim, files, api, scorer);
      var w := WithScore(r, v);
      |w| <= |WithScore(c, v)| && w == WithScore(c, v)[..|w|]
  {
    var c := AllMatches(QueryVector(query, api).value, files, botId, minSim, scorer, |files|).value;
    var r := SearchResults(query, botId, topK, minSim, files, api, scorer);
    var sorted := SortDesc(c);
    SortDescStable(c, v);
    assert sorted == r + sorted[|r|..];
    WithScoreAppend(r, sorted[|r|..], v);
  }
}
