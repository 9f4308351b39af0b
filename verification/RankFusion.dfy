/** Reciprocal rank fusion, `_merge_rrf_results` of nfd_docs_hybrid_search.py, with scores as reals. */
module RankFusion {
  import opened Common

  const RRF_CONSTANT: int := 60

  /** A result dictionary: the document id read from it, if any, its score, and the rest of it. */
  datatype Item = Item(docId: Option<int>, score: real, payload: string)

  /** The 1-based position of the first entry of document `id`, or 0. */
  function Rank(items: seq<Item>, id: int): (r: nat)
    ensures r <= |items|
  {
    if items == [] then 0
    else
      var r := Rank(items[..|items| - 1], id);
      if r == 0 && items[|items| - 1].docId == Some(id) then |items| else r
  }

  lemma {:induction false} RankMeans(items: seq<Item>, id: int)
    ensures Rank(items, id) != 0 ==> items[Rank(items, id) - 1].docId == Some(id)
    ensures forall k :: 0 <= k < (if Rank(items, id) == 0 then |items| else Rank(items, id) - 1) ==>
      items[k].docId != Some(id)
  {
    if items != [] {
      RankMeans(items[..|items| - 1], id);
    }
  }

  /** The first entry of document `id`. */
  function First(items: seq<Item>, id: int): Option<Item> {
    if items == [] then None
    else
      var r := First(items[..|items| - 1], id);
      if r.None? && items[|items| - 1].docId == Some(id) then Some(items[|items| - 1]) else r
  }

  lemma {:induction false} FirstIsAtRank(items: seq<Item>, id: int)
    ensures First(items, id) == if Rank(items, id) == 0 then None else Some(items[Rank(items, id) - 1])
  {
    if items != [] {
      FirstIsAtRank(items[..|items| - 1], id);
    }
  }

  /** What a rank contributes; absence contributes nothing. */
  function Term(rank: nat): real {
    if rank == 0 then 0.0 else 1.0 / (RRF_CONSTANT + rank) as real
  }

  function Score(primary: seq<Item>, secondary: seq<Item>, id: int): real {
    Term(Rank(primary, id)) + Term(Rank(secondary, id))
  }

  predicate Present(primary: seq<Item>, secondary: seq<Item>, id: int) {
    First(primary, id).Some? || First(secondary, id).Some?
  }

  /** The first primary entry, if any, else the first secondary one. */
  function Chosen(primary: seq<Item>, secondary: seq<Item>, id: int): Item
    requires Present(primary, secondary, id)
  {
    if First(primary, id).Some? then First(primary, id).value else First(secondary, id).value
  }

  /** The entry made for a document. */
  function Merged(primary: seq<Item>, secondary: seq<Item>, id: int): Item
    requires Present(primary, secondary, id)
  {
    Chosen(primary, secondary, id).(docId := Some(id), score := Score(primary, secondary, id))
  }

  /** A correct merge: `ids` are the documents present, best first, and `out` the first `topK` of them. */
  ghost predicate IsMerge(primary: seq<Item>, secondary: seq<Item>, topK: int, ids: seq<int>, out: seq<Item>) {
    && (forall id :: id in ids <==> Present(primary, secondary, id))
    && (forall i, j :: 0 <= i < j < |ids| ==> ids[i] != ids[j])
    && (forall i, j :: 0 <= i < j < |ids| ==> Score(primary, secondary, ids[i]) >= Score(primary, secondary, ids[j]))
    && |out| == |Prefix(ids, topK)|
    && (forall i :: 0 <= i < |out| ==> out[i] == Merged(primary, secondary, ids[i]))
  }

  ghost predicate IsCorrectMerge(primary: seq<Item>, secondary: seq<Item>, topK: int, out: seq<Item>) {
    exists ids :: IsMerge(primary, secondary, topK, ids, out)
  }

  // ---------- the algorithm ----------

  lemma HasElement(s: set<int>)
    requires s != {}
    ensures exists x :: x in s
  {
    assert (forall x :: x !in s) ==> s == {};
  }

  method BuildRanks(results: seq<Item>) returns (ranks: map<int, int>)
    ensures forall id :: id in ranks <==> Rank(results, id) != 0
    ensures forall id :: id in ranks ==> ranks[id] == Rank(results, id)
  {
    ranks := map[];
    for k := 0 to |results|
      invariant forall id :: id in ranks <==> Rank(results[..k], id) != 0
      invariant forall id :: id in ranks ==> ranks[id] == Rank(results[..k], id)
    {
      assert results[..k + 1][..k] == results[..k];
      var docId := results[k].docId;
      if docId.Some? && docId.value !in ranks {
        ranks := ranks[docId.value := k + 1];
      }
    }
    assert results[..|results|] == results;
  }

  /** Add to `data` the first entry of each document it does not know yet. */
  method CollectData(data: map<int, Item>, results: seq<Item>) returns (data': map<int, Item>)
    ensures forall id :: id in data' <==> id in data || First(results, id).Some?
    ensures forall id :: id in data' ==> data'[id] == if id in data then data[id] else First(results, id).value
  {
    data' := data;
    for k := 0 to |results|
      invariant forall id :: id in data' <==> id in data || First(results[..k], id).Some?
      invariant forall id :: id in data' ==> data'[id] == if id in data then data[id] else First(results[..k], id).value
    {
      assert results[..k + 1][..k] == results[..k];
      var docId := results[k].docId;
      if docId.Some? && docId.value !in data' {
        data' := data'[docId.value := results[k]];
      }
    }
    assert results[..|results|] == results;
  }

  ghost predicate Sorted(s: seq<int>, scores: map<int, real>) {
    && (forall i :: 0 <= i < |s| ==> s[i] in scores)
    && (forall i, j :: 0 <= i < j < |s| ==> s[i] != s[j] && scores[s[i]] >= scores[s[j]])
  }

  /** Insert into a list sorted by decreasing score. */
  function Insert(s: seq<int>, id: int, scores: map<int, real>): (r: seq<int>)
    requires id in scores && forall i :: 0 <= i < |s| ==> s[i] in scores
    ensures forall x :: x in r <==> x in s || x == id
  {
    if s == [] || scores[s[0]] < scores[id] then [id] + s else [s[0]] + Insert(s[1..], id, scores)
  }

  lemma {:induction false} InsertKeepsSorted(s: seq<int>, id: int, scores: map<int, real>)
    requires Sorted(s, scores) && id in scores && id !in s
    ensures Sorted(Insert(s, id, scores), scores)
  {
    if s != [] && scores[s[0]] >= scores[id] {
      InsertKeepsSorted(s[1..], id, scores);
      var rest := Insert(s[1..], id, scores);
      forall j | 0 <= j < |rest|
        ensures s[0] != rest[j] && scores[s[0]] >= scores[rest[j]]
      {
        assert rest[j] in rest;
        if rest[j] != id {
          var i :| 0 <= i < |s[1..]| && s[1..][i] == rest[j];
          assert s[i + 1] == rest[j];
        }
      }
    }
  }

  /** `sorted(ids, key=score, reverse=True)`; the order of ties is left open, as it is for a set. */
  method SortByScore(ids: set<int>, scores: map<int, real>) returns (s: seq<int>)
    requires forall id :: id in ids ==> id in scores
    ensures Sorted(s, scores) && forall id :: id in s <==> id in ids
  {
    s := [];
    var rest := ids;
    while rest != {}
      invariant rest <= ids && Sorted(s, scores)
      invariant forall id :: id in s <==> id in ids && id !in rest
      decreases rest
    {
      HasElement(rest);
      var id :| id in rest;
      InsertKeepsSorted(s, id, scores);
      s := Insert(s, id, scores);
      rest := rest - {id};
    }
  }

  /** The first `topK` documents, each with its payload and score. */
  method TakeBest(primary: seq<Item>, secondary: seq<Item>, topK: int, sorted: seq<int>, data: map<int, Item>,
                  scores: map<int, real>)
    returns (out: seq<Item>)
    requires forall i :: 0 <= i < |sorted| ==> sorted[i] in data && sorted[i] in scores
    requires forall id :: id in data ==> Present(primary, secondary, id) && data[id] == Chosen(primary, secondary, id)
    requires forall id :: id in scores ==> scores[id] == Score(primary, secondary, id)
    ensures |out| == |Prefix(sorted, topK)|
    ensures forall i :: 0 <= i < |out| ==>
      Present(primary, secondary, sorted[i]) && out[i] == Merged(primary, secondary, sorted[i])
  {
    out := [];
    var kept := Prefix(sorted, topK);
    for i := 0 to |kept|
      invariant |out| == i
      invariant forall j :: 0 <= j < i ==> out[j] == Merged(primary, secondary, sorted[j])
    {
      var id := kept[i];
      out := out + [data[id].(docId := Some(id), score := scores[id])];
    }
  }

  method MergeRrfResults(primary: seq<Item>, secondary: seq<Item>, topK: int) returns (out: seq<Item>)
    ensures IsCorrectMerge(primary, secondary, topK, out)
  {
    var primaryRanks := BuildRanks(primary);
    var secondaryRanks := BuildRanks(secondary);
    var all := primaryRanks.Keys + secondaryRanks.Keys;
    forall id
      ensures id in all <==> Present(primary, secondary, id)
    {
      FirstIsAtRank(primary, id);
      FirstIsAtRank(secondary, id);
    }
    var scores := MergeScores(primary, secondary, primaryRanks, secondaryRanks, all);
    var data := CollectData(map[], primary);
    data := CollectData(data, secondary);
    var sorted := SortByScore(all, scores);
    out := TakeBest(primary, secondary, topK, sorted, data, scores);
    assert IsMerge(primary, secondary, topK, sorted, out);
  }

  method MergeScores(primary: seq<Item>, secondary: seq<Item>, primaryRanks: map<int, int>,
                     secondaryRanks: map<int, int>, all: set<int>)
    returns (scores: map<int, real>)
    requires forall id :: id in primaryRanks <==> Rank(primary, id) != 0
    requires forall id :: id in primaryRanks ==> primaryRanks[id] == Rank(primary, id)
    requires forall id :: id in secondaryRanks <==> Rank(secondary, id) != 0
    requires forall id :: id in secondaryRanks ==> secondaryRanks[id] == Rank(secondary, id)
    ensures scores.Keys == all && forall id :: id in all ==> scores[id] == Score(primary, secondary, id)
  {
    scores := map[];
    var rest := all;
    while rest != {}
      invariant rest <= all && scores.Keys == all - rest
      invariant forall id :: id in scores ==> scores[id] == Score(primary, secondary, id)
      decreases rest
    {
      HasElement(rest);
      var id :| id in rest;
      var score := 0.0;
      if id in primaryRanks {
        score := score + 1.0 / (RRF_CONSTANT + primaryRanks[id]) as real;
      }
      if id in secondaryRanks {
        score := score + 1.0 / (RRF_CONSTANT + secondaryRanks[id]) as real;
      }
      scores := scores[id := score];
      rest := rest - {id};
    }
  }

  // ---------- theorems about every correct merge ----------

  lemma SmallerRankBiggerTerm(a: nat, b: nat)
    requires 0 < a <= b
    ensures Term(a) >= Term(b) > 0.0
    ensures a < b ==> Term(a) > Term(b)
  {
    var x, y := (RRF_CONSTANT + a) as real, (RRF_CONSTANT + b) as real;
    assert (1.0 / x) * x == 1.0 && (1.0 / y) * y == 1.0;
    assert 1.0 / x - 1.0 / y == (y - x) / (x * y);
  }

  /** `a` is at least as good as `b`, absence being the worst. */
  predicate AtLeastAsGood(a: nat, b: nat) {
    b == 0 || (a != 0 && a <= b)
  }

  lemma TermIsMonotone(a: nat, b: nat)
    requires AtLeastAsGood(a, b)
    ensures Term(a) >= Term(b) && (a != b ==> Term(a) > Term(b))
  {
    if b != 0 {
      SmallerRankBiggerTerm(a, b);
    } else if a != 0 {
      SmallerRankBiggerTerm(a, a);
    }
  }

  /** At least as good in both lists and different in one: a strictly higher score. */
  lemma DominanceInScore(primary: seq<Item>, secondary: seq<Item>, a: int, b: int)
    requires AtLeastAsGood(Rank(primary, a), Rank(primary, b)) && AtLeastAsGood(Rank(secondary, a), Rank(secondary, b))
    requires Rank(primary, a) != Rank(primary, b) || Rank(secondary, a) != Rank(secondary, b)
    ensures Score(primary, secondary, a) > Score(primary, secondary, b)
  {
    TermIsMonotone(Rank(primary, a), Rank(primary, b));
    TermIsMonotone(Rank(secondary, a), Rank(secondary, b));
  }

  lemma {:induction false} HigherScoreComesEarlier(primary: seq<Item>, secondary: seq<Item>, topK: int, ids: seq<int>,
                                                   out: seq<Item>, a: int, j: nat)
    requires IsMerge(primary, secondary, topK, ids, out) && j < |out|
    requires Present(primary, secondary, a) && Score(primary, secondary, a) > Score(primary, secondary, ids[j])
    ensures exists i :: 0 <= i < j && out[i].docId == Some(a)
  {
    assert a in ids;
    var i :| 0 <= i < |ids| && ids[i] == a;
    assert i < j;
    assert out[i].docId == Some(a);
  }

  /** A document that dominates a kept one is kept, strictly earlier. */
  lemma {:induction false} DominanceInOutput(primary: seq<Item>, secondary: seq<Item>, topK: int, ids: seq<int>,
                                             out: seq<Item>, a: int, j: nat)
    requires IsMerge(primary, secondary, topK, ids, out) && j < |out|
    requires AtLeastAsGood(Rank(primary, a), Rank(primary, ids[j]))
    requires AtLeastAsGood(Rank(secondary, a), Rank(secondary, ids[j]))
    requires Rank(primary, a) != Rank(primary, ids[j]) || Rank(secondary, a) != Rank(secondary, ids[j])
    ensures exists i :: 0 <= i < j && out[i].docId == Some(a)
  {
    DominanceInScore(primary, secondary, a, ids[j]);
    FirstIsAtRank(primary, a);
    FirstIsAtRank(secondary, a);
    HigherScoreComesEarlier(primary, secondary, topK, ids, out, a, j);
  }

  /** Output scores do not increase, documents are distinct, and nothing left out beats anything kept. */
  lemma OutputIsTheBest(primary: seq<Item>, secondary: seq<Item>, topK: int, ids: seq<int>, out: seq<Item>, i: nat,
                        id: int)
    requires IsMerge(primary, secondary, topK, ids, out) && i < |out| && Present(primary, secondary, id)
    requires forall j :: 0 <= j < i ==> out[j].docId != Some(id)
    ensures out[i].score >= Score(primary, secondary, id)
    ensures forall j :: i < j < |out| ==> out[j].score <= out[i].score && out[j].docId != out[i].docId
  {
    assert id in ids;
    var k :| 0 <= k < |ids| && ids[k] == id;
    assert forall j :: 0 <= j < |out| && ids[j] == id ==> out[j].docId == Some(id);
  }

  /** The number of results: `topK` when there are that many documents, and all of them otherwise. */
  lemma {:induction false} OutputLength(primary: seq<Item>, secondary: seq<Item>, topK: int, ids: seq<int>,
                                        out: seq<Item>)
    requires IsMerge(primary, secondary, topK, ids, out)
    ensures topK >= 0 ==> |out| == if topK < |ids| then topK else |ids|
    ensures topK < 0 ==> |out| == if -topK < |ids| then |ids| + topK else 0
    ensures forall id :: id in ids <==> (exists k :: 0 <= k < |primary| && primary[k].docId == Some(id))
                                        || exists k :: 0 <= k < |secondary| && secondary[k].docId == Some(id)
  {
    forall id
      ensures id in ids <==> !Missing(primary, id) || !Missing(secondary, id)
    {
      MissingHasNoRank(primary, id);
      MissingHasNoRank(secondary, id);
      FirstIsAtRank(primary, id);
      FirstIsAtRank(secondary, id);
    }
  }

  ghost predicate FirstAt(items: seq<Item>, id: int, i: nat) {
    i < |items| && items[i].docId == Some(id) && forall j :: 0 <= j < i ==> items[j].docId != Some(id)
  }

  ghost predicate Missing(items: seq<Item>, id: int) {
    forall j :: 0 <= j < |items| ==> items[j].docId != Some(id)
  }

  lemma MissingHasNoRank(items: seq<Item>, id: int)
    ensures Missing(items, id) <==> Rank(items, id) == 0
  {
    RankMeans(items, id);
  }

  lemma FirstHasRank(items: seq<Item>, id: int, i: nat)
    requires FirstAt(items, id, i)
    ensures Rank(items, id) == i + 1 && First(items, id) == Some(items[i])
  {
    RankMeans(items, id);
    FirstIsAtRank(items, id);
  }

  /** An entry found in both lists: the payload is the primary one, and both reciprocal ranks count. */
  lemma SharedEntry(primary: seq<Item>, secondary: seq<Item>, topK: int, ids: seq<int>, out: seq<Item>, x: nat, i: nat,
                    j: nat)
    requires IsMerge(primary, secondary, topK, ids, out) && x < |out|
    requires FirstAt(primary, ids[x], i) && FirstAt(secondary, ids[x], j)
    ensures out[x] == Item(Some(ids[x]), 1.0 / (61 + i) as real + 1.0 / (61 + j) as real, primary[i].payload)
  {
    FirstHasRank(primary, ids[x], i);
    FirstHasRank(secondary, ids[x], j);
  }

  /** An entry found in one list only. */
  lemma SingleEntry(primary: seq<Item>, secondary: seq<Item>, topK: int, ids: seq<int>, out: seq<Item>, x: nat, i: nat)
    requires IsMerge(primary, secondary, topK, ids, out) && x < |out|
    ensures FirstAt(primary, ids[x], i) && Missing(secondary, ids[x]) ==>
      out[x] == Item(Some(ids[x]), 1.0 / (61 + i) as real, primary[i].payload)
    ensures Missing(primary, ids[x]) && FirstAt(secondary, ids[x], i) ==>
      out[x] == Item(Some(ids[x]), 1.0 / (61 + i) as real, secondary[i].payload)
  {
    if FirstAt(primary, ids[x], i) && Missing(secondary, ids[x]) {
      FirstHasRank(primary, ids[x], i);
      MissingHasNoRank(secondary, ids[x]);
    }
    if Missing(primary, ids[x]) && FirstAt(secondary, ids[x], i) {
      FirstHasRank(secondary, ids[x], i);
      MissingHasNoRank(primary, ids[x]);
      FirstIsAtRank(primary, ids[x]);
    }
  }

  /** Found by both retrievers, and by just one. */
  predicate Shared(primary: seq<Item>, secondary: seq<Item>, id: int) {
    Rank(primary, id) != 0 && Rank(secondary, id) != 0
  }

  predicate Single(primary: seq<Item>, secondary: seq<Item>, id: int) {
    Present(primary, secondary, id) && !Shared(primary, secondary, id)
  }

  /** Every entry has a document id, and no two the same. */
  predicate Distinct(items: seq<Item>) {
    && (forall k :: 0 <= k < |items| ==> items[k].docId.Some?)
    && (forall j, k :: 0 <= j < k < |items| ==> items[j].docId != items[k].docId)
  }

  /** With both lists at most `n` long, agreement always beats a single hit. */
  ghost predicate AgreementWins(n: nat) {
    forall primary, secondary, a, b ::
      |primary| <= n && |secondary| <= n && Distinct(primary) && Distinct(secondary)
      && Shared(primary, secondary, a) && Single(primary, secondary, b)
      ==> Score(primary, secondary, a) > Score(primary, secondary, b)
  }

  lemma AgreementBeatsSingle(primary: seq<Item>, secondary: seq<Item>, a: int, b: int)
    requires |primary| <= 61 && |secondary| <= 61
    requires Shared(primary, secondary, a) && Single(primary, secondary, b)
    ensures Score(primary, secondary, a) > Score(primary, secondary, b)
  {
    FirstIsAtRank(primary, b);
    FirstIsAtRank(secondary, b);
    SmallerRankBiggerTerm(Rank(primary, a), 61);
    SmallerRankBiggerTerm(Rank(secondary, a), 61);
    var r := if Rank(primary, b) != 0 then Rank(primary, b) else Rank(secondary, b);
    SmallerRankBiggerTerm(1, r);
    assert Term(61) + Term(61) > Term(1);
  }

  /** `n` entries of distinct documents, numbered from 3. */
  function Filler(n: nat): (s: seq<Item>)
    ensures |s| == n && forall k :: 0 <= k < n ==> s[k].docId == Some(k + 3)
  {
    if n == 0 then [] else Filler(n - 1) + [Item(Some(n + 2), 0.0, "")]
  }

  lemma {:induction false} RankInTail(head: seq<Item>, n: nat, id: int)
    requires id < 3
    ensures Rank(head + Filler(n), id) == Rank(head, id)
  {
    if n == 0 {
      assert head + Filler(0) == head;
    } else {
      var s := head + Filler(n);
      assert s[..|s| - 1] == head + Filler(n - 1);
      RankInTail(head, n - 1, id);
    }
  }

  /** The tie: document 1 comes 62nd in both lists, document 2 first in one. */
  lemma TieAt62(primary: seq<Item>, secondary: seq<Item>)
    requires primary == [Item(Some(2), 0.0, "")] + Filler(60) + [Item(Some(1), 0.0, "")]
    requires secondary == Filler(61) + [Item(Some(1), 0.0, "")]
    ensures Rank(primary, 1) == 62 && Rank(secondary, 1) == 62 && Rank(primary, 2) == 1 && Rank(secondary, 2) == 0
  {
    var first := [Item(Some(2), 0.0, "")];
    assert primary[..61] == first + Filler(60);
    assert secondary[..61] == [] + Filler(61);
    RankInTail(first, 60, 1);
    RankInTail(first, 60, 2);
    RankInTail([], 61, 1);
    RankInTail([], 61, 2);
    assert first[..0] == [];
  }

  /** From 62 entries on, a document 62nd in both lists ties with one first in a single list. */
  lemma AgreementTiesFrom62(n: nat)
    requires n >= 62
    ensures !AgreementWins(n)
  {
    var primary := [Item(Some(2), 0.0, "")] + Filler(60) + [Item(Some(1), 0.0, "")];
    var secondary := Filler(61) + [Item(Some(1), 0.0, "")];
    TieAt62(primary, secondary);
    FirstIsAtRank(primary, 2);
    assert Distinct(primary) && Distinct(secondary);
    assert Term(62) + Term(62) == Term(1);
    assert Score(primary, secondary, 1) == Score(primary, secondary, 2);
  }

  /** On lists of distinct documents, as the retrievers return, agreement wins exactly up to 61 entries. */
  lemma AgreementWinsExactly(n: nat)
    ensures AgreementWins(n) <==> n <= 61
  {
    if n <= 61 {
      forall primary, secondary, a, b | |primary| <= n && |secondary| <= n
        && Shared(primary, secondary, a) && Single(primary, secondary, b)
        ensures Score(primary, secondary, a) > Score(primary, secondary, b)
      {
        AgreementBeatsSingle(primary, secondary, a, b);
      }
    } else {
      AgreementTiesFrom62(n);
    }
  }

  /** So with lists of at most 61 entries, every shared document precedes every single one in the output. */
  lemma SharedComeFirst(primary: seq<Item>, secondary: seq<Item>, topK: int, ids: seq<int>, out: seq<Item>, a: int,
                        j: nat)
    requires |primary| <= 61 && |secondary| <= 61
    requires IsMerge(primary, secondary, topK, ids, out) && j < |out|
    requires Shared(primary, secondary, a) && Single(primary, secondary, ids[j])
    ensures exists i :: 0 <= i < j && out[i].docId == Some(a)
  {
    AgreementBeatsSingle(primary, secondary, a, ids[j]);
    FirstIsAtRank(primary, a);
    HigherScoreComesEarlier(primary, secondary, topK, ids, out, a, j);
  }
}
