/** Grouping of retrieved chunks by document, after the SQL rows of chunks_hybrid_search.py have arrived. */
module ChunkGrouping {
  import opened Common

  const MAX_FETCH_CHUNKS_PER_DOC: int := 30

  /** A scored row of the ranking query, and a row of the chunk query. */
  datatype Hit = Hit(chunkId: int, docId: Option<int>, score: real)
  datatype Chunk = Chunk(id: int, docId: int, content: string)
  datatype DocResult = DocResult(docId: int, score: real, chunks: seq<Chunk>)

  function Max(a: real, b: real): real {
    if a >= b then a else b
  }

  /** The documents of the hits, in order of first appearance. */
  function DocsInOrder(hits: seq<Hit>): seq<int> {
    if hits == [] then []
    else
      var before, last := DocsInOrder(hits[..|hits| - 1]), hits[|hits| - 1].docId;
      if last.Some? && last.value !in before then before + [last.value] else before
  }

  /** The best score among the hits of document `d`. */
  function BestScore(hits: seq<Hit>, d: int): real
    requires d in DocsInOrder(hits)
  {
    var before, last := hits[..|hits| - 1], hits[|hits| - 1];
    if d !in DocsInOrder(before) then last.score
    else if last.docId == Some(d) then Max(BestScore(before, d), last.score)
    else BestScore(before, d)
  }

  method GroupByDocument(hits: seq<Hit>) returns (docOrder: seq<int>, docScores: map<int, real>)
    ensures docOrder == DocsInOrder(hits)
    ensures forall d :: d in docScores <==> d in docOrder
    ensures forall d :: d in docScores ==> docScores[d] == BestScore(hits, d)
  {
    docOrder, docScores := [], map[];
    for k := 0 to |hits|
      invariant docOrder == DocsInOrder(hits[..k])
      invariant forall d :: d in docOrder ==> d in docScores
      invariant forall d :: d in docScores ==> d in docOrder
      invariant forall d :: d in docScores ==> docScores[d] == BestScore(hits[..k], d)
    {
      assert hits[..k + 1][..k] == hits[..k] && hits[..k + 1][k] == hits[k];
      var docId := hits[k].docId;
      if docId.Some? {
        var d := docId.value;
        if d !in docScores {
          docScores := docScores[d := hits[k].score];
          docOrder := docOrder + [d];
        } else {
          docScores := docScores[d := Max(docScores[d], hits[k].score)];
        }
      }
    }
    assert hits[..|hits|] == hits;
  }

  /** Each document of a hit appears once; no other does. */
  lemma {:induction false} DocsAreDistinct(hits: seq<Hit>)
    ensures forall d :: d in DocsInOrder(hits) <==> exists k :: 0 <= k < |hits| && hits[k].docId == Some(d)
    ensures forall i, j :: 0 <= i < j < |DocsInOrder(hits)| ==> DocsInOrder(hits)[i] != DocsInOrder(hits)[j]
  {
    if hits != [] {
      var before := hits[..|hits| - 1];
      DocsAreDistinct(before);
      forall d
        ensures d in DocsInOrder(hits) <==> exists k :: 0 <= k < |hits| && hits[k].docId == Some(d)
      {
        if k :| 0 <= k < |hits| && hits[k].docId == Some(d) {
          assert k < |before| ==> before[k].docId == Some(d);
        }
        if d in DocsInOrder(before) {
          var k :| 0 <= k < |before| && before[k].docId == Some(d);
          assert hits[k].docId == Some(d);
        }
      }
    }
  }

  /** The document score is an upper bound of its hits, and one of them has it. */
  lemma {:induction false} BestScoreIsMaximum(hits: seq<Hit>, d: int)
    requires d in DocsInOrder(hits)
    ensures forall k :: 0 <= k < |hits| && hits[k].docId == Some(d) ==> hits[k].score <= BestScore(hits, d)
    ensures exists k :: 0 <= k < |hits| && hits[k].docId == Some(d) && hits[k].score == BestScore(hits, d)
  {
    var before := hits[..|hits| - 1];
    DocsAreDistinct(before);
    if d in DocsInOrder(before) {
      BestScoreIsMaximum(before, d);
      var k :| 0 <= k < |before| && before[k].docId == Some(d) && before[k].score == BestScore(before, d);
      assert hits[k] == before[k];
      assert BestScore(hits, d) == BestScore(before, d) || hits[|hits| - 1].score == BestScore(hits, d);
    } else {
      assert hits[|hits| - 1].score == BestScore(hits, d);
      assert forall k :: 0 <= k < |before| ==> before[k].docId != Some(d);
    }
  }

  ghost predicate Descending(hits: seq<Hit>) {
    forall i, j :: 0 <= i < j < |hits| ==> hits[i].score >= hits[j].score
  }

  /** For rows in descending score, documents come in non-increasing order of their best score. */
  lemma {:induction false} GroupsAreRanked(hits: seq<Hit>)
    requires Descending(hits)
    ensures forall i, j :: 0 <= i < j < |DocsInOrder(hits)| ==>
      BestScore(hits, DocsInOrder(hits)[i]) >= BestScore(hits, DocsInOrder(hits)[j])
    ensures forall d :: d in DocsInOrder(hits) && hits != [] ==> BestScore(hits, d) >= hits[|hits| - 1].score
  {
    if hits != [] {
      var before, last := hits[..|hits| - 1], hits[|hits| - 1];
      GroupsAreRanked(before);
      forall d | d in DocsInOrder(before)
        ensures BestScore(hits, d) == BestScore(before, d) >= last.score
      {
        BestScoreIsMaximum(before, d);
        var k :| 0 <= k < |before| && before[k].docId == Some(d) && before[k].score == BestScore(before, d);
        assert hits[k].score >= hits[|hits| - 1].score;
      }
    }
  }

  // ---------- the per-document cap ----------

  /** How many of the chunks belong to document `d`. */
  function Count(chunks: seq<Chunk>, d: int): nat {
    if chunks == [] then 0
    else Count(chunks[..|chunks| - 1], d) + if chunks[|chunks| - 1].docId == d then 1 else 0
  }

  function OfDoc(chunks: seq<Chunk>, d: int): seq<Chunk> {
    if chunks == [] then []
    else
      var before := OfDoc(chunks[..|chunks| - 1], d);
      if chunks[|chunks| - 1].docId == d then before + [chunks[|chunks| - 1]] else before
  }

  /** Kept: matched, or among the first 30 chunks of its document. */
  predicate Keeps(raw: seq<Chunk>, matched: set<int>, k: int)
    requires 0 <= k < |raw|
  {
    raw[k].id in matched || Count(raw[..k], raw[k].docId) < MAX_FETCH_CHUNKS_PER_DOC
  }

  /** The kept chunks, in order. */
  function Capped(raw: seq<Chunk>, matched: set<int>): seq<Chunk> {
    if raw == [] then []
    else
      var before := Capped(raw[..|raw| - 1], matched);
      if Keeps(raw, matched, |raw| - 1) then before + [raw[|raw| - 1]] else before
  }

  /** The code counts kept chunks, the definition all chunks: both stay below 30 together. */
  lemma {:induction false} CountsAgree(raw: seq<Chunk>, matched: set<int>, d: int)
    ensures var kept := Count(Capped(raw, matched), d);
      if Count(raw, d) <= MAX_FETCH_CHUNKS_PER_DOC then kept == Count(raw, d) else kept >= MAX_FETCH_CHUNKS_PER_DOC
  {
    if raw != [] {
      var before := Capped(raw[..|raw| - 1], matched);
      CountsAgree(raw[..|raw| - 1], matched, d);
      assert (before + [raw[|raw| - 1]])[..|before|] == before;
    }
  }

  method CapChunks(raw: seq<Chunk>, matched: set<int>) returns (all: seq<Chunk>)
    ensures all == Capped(raw, matched)
  {
    all := [];
    var counts: map<int, int> := map[];
    for k := 0 to |raw|
      invariant all == Capped(raw[..k], matched)
      invariant forall d :: (if d in counts then counts[d] else 0) == Count(all, d)
    {
      assert raw[..k + 1][..k] == raw[..k];
      var did := raw[k].docId;
      var count := if did in counts then counts[did] else 0;
      CountsAgree(raw[..k], matched, did);
      if raw[k].id in matched || count < MAX_FETCH_CHUNKS_PER_DOC {
        assert (all + [raw[k]])[..|all|] == all;
        all := all + [raw[k]];
        counts := counts[did := count + 1];
      }
    }
    assert raw[..|raw|] == raw;
  }

  /** How many chunks of document `d` were matched. */
  function MatchedCount(raw: seq<Chunk>, matched: set<int>, d: int): nat {
    if raw == [] then 0
    else
      var last := raw[|raw| - 1];
      MatchedCount(raw[..|raw| - 1], matched, d) + if last.docId == d && last.id in matched then 1 else 0
  }

  /** A document keeps at most 30 chunks plus its matched ones. */
  lemma {:induction false} CapIsRespected(raw: seq<Chunk>, matched: set<int>, d: int)
    ensures Count(Capped(raw, matched), d) <= MAX_FETCH_CHUNKS_PER_DOC + MatchedCount(raw, matched, d)
  {
    if raw != [] {
      var before := Capped(raw[..|raw| - 1], matched);
      CapIsRespected(raw[..|raw| - 1], matched, d);
      CountsAgree(raw[..|raw| - 1], matched, d);
      assert (before + [raw[|raw| - 1]])[..|before|] == before;
    }
  }

  /** Every matched chunk that was fetched is kept, and so is every chunk among the first 30 of its document. */
  lemma {:induction false} KeptChunksAreKept(raw: seq<Chunk>, matched: set<int>, k: int)
    requires 0 <= k < |raw| && Keeps(raw, matched, k)
    ensures raw[k] in Capped(raw, matched)
  {
    if k < |raw| - 1 {
      assert raw[..|raw| - 1][..k] == raw[..k];
      KeptChunksAreKept(raw[..|raw| - 1], matched, k);
    }
  }

  /** The chunks of the same document that come before chunk `k`. */
  ghost function Before(raw: seq<Chunk>, k: int): set<int>
    requires 0 <= k < |raw|
  {
    set j | 0 <= j < k && raw[j].docId == raw[k].docId
  }

  lemma {:induction false} CountIsSize(chunks: seq<Chunk>, d: int, positions: set<int>)
    requires positions == set j | 0 <= j < |chunks| && chunks[j].docId == d
    ensures Count(chunks, d) == |positions|
  {
    if chunks == [] {
      assert positions == {};
    } else {
      var n := |chunks| - 1;
      var rest := set j | 0 <= j < n && chunks[..n][j].docId == d;
      CountIsSize(chunks[..n], d, rest);
      assert positions == if chunks[n].docId == d then rest + {n} else rest;
    }
  }

  ghost predicate DistinctChunks(raw: seq<Chunk>) {
    forall i, j :: 0 <= i < j < |raw| ==> raw[i].id != raw[j].id
  }

  lemma {:induction false} CappedComesFrom(raw: seq<Chunk>, matched: set<int>, c: Chunk) returns (k: int)
    requires c in Capped(raw, matched)
    ensures 0 <= k < |raw| && raw[k] == c && Keeps(raw, matched, k)
  {
    var n := |raw| - 1;
    if c in Capped(raw[..n], matched) {
      k := CappedComesFrom(raw[..n], matched, c);
      assert raw[..n][..k] == raw[..k];
    } else {
      k := n;
    }
  }

  /** A chunk is kept exactly when it was matched or fewer than 30 chunks of its document come before it. */
  lemma {:induction false} KeptExactly(raw: seq<Chunk>, matched: set<int>, k: int)
    requires 0 <= k < |raw| && DistinctChunks(raw)
    ensures raw[k] in Capped(raw, matched) <==> raw[k].id in matched || |Before(raw, k)| < 30
  {
    assert Before(raw, k) == set j | 0 <= j < |raw[..k]| && raw[..k][j].docId == raw[k].docId;
    CountIsSize(raw[..k], raw[k].docId, Before(raw, k));
    if raw[k] in Capped(raw, matched) {
      var j := CappedComesFrom(raw, matched, raw[k]);
      assert j == k;
    }
    if Keeps(raw, matched, k) {
      KeptChunksAreKept(raw, matched, k);
    }
  }

  /** Kept chunks stay in order. */
  lemma {:induction false} CappedKeepsOrder(raw: seq<Chunk>, matched: set<int>, a: int, b: int) returns (k: int, l: int)
    requires 0 <= a < b < |Capped(raw, matched)|
    ensures 0 <= k < l < |raw| && raw[k] == Capped(raw, matched)[a] && raw[l] == Capped(raw, matched)[b]
  {
    var n := |raw| - 1;
    var before := Capped(raw[..n], matched);
    if b < |before| {
      k, l := CappedKeepsOrder(raw[..n], matched, a, b);
    } else {
      k := CappedComesFrom(raw[..n], matched, before[a]);
      l := n;
    }
  }

  /** The chunks of a document are picked in order, and are all of them. */
  lemma {:induction false} OfDocMeans(chunks: seq<Chunk>, d: int)
    ensures forall c :: c in OfDoc(chunks, d) <==> c in chunks && c.docId == d
    ensures |OfDoc(chunks, d)| == Count(chunks, d)
  {
    if chunks != [] {
      OfDocMeans(chunks[..|chunks| - 1], d);
      assert chunks == chunks[..|chunks| - 1] + [chunks[|chunks| - 1]];
    }
  }

  lemma {:induction false} OfDocKeepsOrder(chunks: seq<Chunk>, d: int, a: int, b: int) returns (k: int, l: int)
    requires 0 <= a < b < |OfDoc(chunks, d)|
    ensures 0 <= k < l < |chunks| && chunks[k] == OfDoc(chunks, d)[a] && chunks[l] == OfDoc(chunks, d)[b]
  {
    var n := |chunks| - 1;
    var before := OfDoc(chunks[..n], d);
    if b < |before| {
      k, l := OfDocKeepsOrder(chunks[..n], d, a, b);
    } else {
      OfDocMeans(chunks[..n], d);
      assert before[a] in chunks[..n];
      k :| 0 <= k < n && chunks[k] == before[a];
      l := n;
    }
  }

  /** Documents are listed in the order of their first hits. */
  lemma {:induction false} DocsByFirstHit(hits: seq<Hit>, a: int, b: int) returns (k: int)
    requires 0 <= a < b < |DocsInOrder(hits)|
    ensures 0 <= k < |hits| && hits[k].docId == Some(DocsInOrder(hits)[a])
    ensures forall j :: 0 <= j <= k ==> hits[j].docId != Some(DocsInOrder(hits)[b])
  {
    var n := |hits| - 1;
    var rest := hits[..n];
    var before := DocsInOrder(rest);
    if b < |before| {
      k := DocsByFirstHit(rest, a, b);
      assert forall j :: 0 <= j < n ==> hits[j] == rest[j];
    } else {
      DocsAreDistinct(rest);
      var d, last := before[a], DocsInOrder(hits)[b];
      assert d in before && last !in before;
      k := HitOf(rest, d);
      forall j | 0 <= j <= k
        ensures hits[j].docId != Some(last)
      {
        assert hits[j] == rest[j];
      }
    }
  }

  lemma HitOf(hits: seq<Hit>, d: int) returns (k: int)
    requires d in DocsInOrder(hits)
    ensures 0 <= k < |hits| && hits[k].docId == Some(d)
  {
    DocsAreDistinct(hits);
    k :| 0 <= k < |hits| && hits[k].docId == Some(d);
  }

  // ---------- assembly ----------

  function MatchedIds(hits: seq<Hit>): set<int> {
    set k | 0 <= k < |hits| :: hits[k].chunkId
  }

  method Assemble(docIds: seq<int>, all: seq<Chunk>) returns (docMap: map<int, seq<Chunk>>)
    ensures forall d :: d in docMap <==> d in docIds
    ensures forall d :: d in docMap ==> docMap[d] == OfDoc(all, d)
  {
    docMap := map d | d in docIds :: [];
    for k := 0 to |all|
      invariant forall d :: d in docMap <==> d in docIds
      invariant forall d :: d in docMap ==> docMap[d] == OfDoc(all[..k], d)
    {
      assert all[..k + 1][..k] == all[..k];
      var d := all[k].docId;
      if d in docMap {
        docMap := docMap[d := docMap[d] + [all[k]]];
      }
    }
    assert all[..|all|] == all;
  }

  /** The result for document `d`: its best score and its kept chunks. */
  ghost predicate IsResult(r: DocResult, d: int, hits: seq<Hit>, raw: seq<Chunk>) {
    d in DocsInOrder(hits) &&
    r == DocResult(d, BestScore(hits, d), OfDoc(Capped(raw, MatchedIds(hits)), d))
  }

  /** The Python part of `hybrid_search`, after both queries. */
  method HybridSearch(hits: seq<Hit>, topK: int, raw: seq<Chunk>) returns (finalDocs: seq<DocResult>)
    ensures var docIds := Prefix(DocsInOrder(hits), topK);
      && |finalDocs| == |docIds|
      && forall k :: 0 <= k < |docIds| ==> IsResult(finalDocs[k], docIds[k], hits, raw)
  {
    var docOrder, docScores := GroupByDocument(hits);
    var docIds := Prefix(docOrder, topK);
    finalDocs := [];
    if docIds == [] {
      return;
    }
    var matched := MatchedIds(hits);
    var all := CapChunks(raw, matched);
    var docMap := Assemble(docIds, all);
    for k := 0 to |docIds|
      invariant |finalDocs| == k
      invariant forall j :: 0 <= j < k ==> IsResult(finalDocs[j], docIds[j], hits, raw)
    {
      var d := docIds[k];
      assert docOrder[k] == d;
      finalDocs := finalDocs + [DocResult(d, docScores[d], docMap[d])];
    }
  }

  /**
    In the result of a document, every fetched chunk of it that was hit is there, and every one with fewer
    than 30 chunks of the document before it; no other chunk is.
   */
  lemma ResultHasItsChunks(r: DocResult, d: int, hits: seq<Hit>, raw: seq<Chunk>, k: int)
    requires IsResult(r, d, hits, raw) && DistinctChunks(raw) && 0 <= k < |raw|
    ensures raw[k] in r.chunks <==>
      raw[k].docId == d
      && ((exists h :: 0 <= h < |hits| && hits[h].chunkId == raw[k].id) || |Before(raw, k)| < 30)
  {
    OfDocMeans(Capped(raw, MatchedIds(hits)), d);
    KeptExactly(raw, MatchedIds(hits), k);
  }

  /** The chunks `_fetch_chunks_for_documents` of nfd_docs_hybrid_search.py keeps for document `d`. */
  function FirstChunks(raw: seq<Chunk>, d: int): (r: seq<Chunk>)
    ensures |r| <= MAX_FETCH_CHUNKS_PER_DOC
  {
    if raw == [] then []
    else
      var before, last := FirstChunks(raw[..|raw| - 1], d), raw[|raw| - 1];
      if last.docId == d && |before| < MAX_FETCH_CHUNKS_PER_DOC then before + [last] else before
  }

  /** They are the first 30 chunks of the document. */
  lemma {:induction false} FirstChunksAreFirst(raw: seq<Chunk>, d: int)
    ensures FirstChunks(raw, d) == Take(OfDoc(raw, d), 30)
  {
    if raw != [] {
      FirstChunksAreFirst(raw[..|raw| - 1], d);
    }
  }

  method FetchChunksForDocuments(docIds: seq<int>, raw: seq<Chunk>) returns (chunksByDoc: map<int, seq<Chunk>>)
    ensures forall d :: d in chunksByDoc ==> chunksByDoc[d] == FirstChunks(raw, d)
    ensures forall d :: d !in chunksByDoc ==> d !in docIds && FirstChunks(raw, d) == []
  {
    var counts: map<int, int> := map[];
    chunksByDoc := map d | d in docIds :: [];
    for k := 0 to |raw|
      invariant forall d :: d in chunksByDoc ==> chunksByDoc[d] == FirstChunks(raw[..k], d)
      invariant forall d :: d !in chunksByDoc ==> d !in docIds && FirstChunks(raw[..k], d) == []
      invariant forall d :: (if d in counts then counts[d] else 0) == |FirstChunks(raw[..k], d)|
    {
      assert raw[..k + 1][..k] == raw[..k] && raw[..k + 1][k] == raw[k];
      var d := raw[k].docId;
      var count := if d in counts then counts[d] else 0;
      if count < MAX_FETCH_CHUNKS_PER_DOC {
        var have := if d in chunksByDoc then chunksByDoc[d] else [];
        chunksByDoc := chunksByDoc[d := have + [raw[k]]];
        counts := counts[d := count + 1];
      }
    }
    assert raw[..|raw|] == raw;
  }
}
