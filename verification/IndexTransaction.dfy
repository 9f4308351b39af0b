/** What one successful `index` call writes, and what it leaves alone. */
module IndexTransaction {
  import opened Common
  import opened Hashing
  import opened SectionForest
  import opened DocumentChunker
  import opened Tables

  /** Chunks and sections of `d` deleted, as `index` and `attach_sections_and_chunks` do before inserting. */
  function Cleared(t: Tables, d: int): Tables {
    DeleteSections(t.(chunks := DeleteChunks(t.chunks, d)), d)
  }

  /** The sections and chunks of `d` replaced by those of outline `o`. */
  function Replaced(e: Tools, t: Tables, d: int, o: seq<Content>, base: int): Tables {
    var c := Cleared(t, d);
    c.(sections := c.sections + StoredSections(e, d, o, |o|, base),
       chunks := c.chunks + StoredChunks(e, d, o, |o|, base))
  }

  lemma ClearedTables(t: Tables, d: int, x: int)
    requires LinksStayInside(t)
    ensures var c := Cleared(t, d);
      && c.docs == t.docs
      && SectionsOf(c.sections, x) == (if x == d then [] else SectionsOf(t.sections, x))
      && ChunksOf(c.chunks, x) == (if x == d then [] else ChunksOf(t.chunks, x))
      && (forall r :: r in c.sections ==> r in t.sections && r.doc != d)
      && (forall r :: r in c.chunks ==> r in t.chunks && r.doc != d)
  {
    var ids, left := SectionIds(t.sections, d), DeleteChunks(t.chunks, d);
    ChunksAfterDelete(t.chunks, d, x);
    forall c | c in left
      ensures !PointsInto(c.section, ids)
    {
      if PointsInto(c.section, ids) {
        SectionIdsMeaning(t.sections, d, c.section.value);
        assert false;
      }
    }
    UnlinkNothing(left, ids);
    forall r | r in t.sections && r.doc != d
      ensures !PointsInto(r.parent, ids)
    {
      if PointsInto(r.parent, ids) {
        SectionIdsMeaning(t.sections, d, r.parent.value);
        assert false;
      }
    }
    SectionsAfterDelete(t.sections, d, ids, x);
  }

  /** The links of what is stored stay among the new ids. */
  predicate FreshSection(r: SectionRow, d: int, base: int, n: int) {
    r.doc == d && base <= r.id < base + n && (r.parent.Some? ==> base <= r.parent.value < base + n)
  }

  predicate FreshChunk(c: ChunkRow, d: int, base: int, n: int) {
    c.doc == d && c.section.Some? && base <= c.section.value < base + n
  }

  lemma {:induction false} StoredSectionsAreFresh(e: Tools, d: int, o: seq<Content>, n: nat, base: int)
    requires n <= |o|
    ensures forall r :: r in StoredSections(e, d, o, n, base) ==> FreshSection(r, d, base, n)
  {
    if n > 0 {
      StoredSectionsAreFresh(e, d, o, n - 1, base);
      assert FreshSection(StoredSection(e, d, o, n - 1, base), d, base, n);
    }
  }

  lemma {:induction false} StoredChunksOfAreFresh(e: Tools, d: int, c: Content, id: int, m: nat)
    requires m <= |c.chunks|
    ensures forall r :: r in StoredChunksOf(e, d, c, id, m) ==> r.doc == d && r.section == Some(id)
  {
    if m > 0 {
      StoredChunksOfAreFresh(e, d, c, id, m - 1);
    }
  }

  lemma {:induction false} StoredChunksAreFresh(e: Tools, d: int, o: seq<Content>, n: nat, base: int)
    requires n <= |o|
    ensures forall r :: r in StoredChunks(e, d, o, n, base) ==> FreshChunk(r, d, base, n)
  {
    if n > 0 {
      StoredChunksAreFresh(e, d, o, n - 1, base);
      StoredChunksOfAreFresh(e, d, o[n - 1], base + n - 1, |o[n - 1].chunks|);
    }
  }

  /** The document ends up with exactly the new outline; no stale chunk or section of it remains. */
  lemma ReplacedHoldsOutline(e: Tools, t: Tables, d: int, o: seq<Content>, base: int)
    requires LinksStayInside(t)
    ensures HoldsFrom(e, Replaced(e, t, d, o, base), d, o, base)
  {
    ClearedTables(t, d, d);
    SectionsOfConcat(Cleared(t, d).sections, StoredSections(e, d, o, |o|, base), d);
    ChunksOfConcat(Cleared(t, d).chunks, StoredChunks(e, d, o, |o|, base), d);
    StoredSectionsOf(e, d, o, |o|, base, d);
    StoredChunksOfAll(e, d, o, |o|, base, d);
  }

  /** Every other document keeps its rows. */
  lemma ReplacedLeavesOthers(e: Tools, t: Tables, d: int, o: seq<Content>, base: int, x: int)
    requires LinksStayInside(t) && x != d
    ensures SectionsOf(Replaced(e, t, d, o, base).sections, x) == SectionsOf(t.sections, x)
    ensures ChunksOf(Replaced(e, t, d, o, base).chunks, x) == ChunksOf(t.chunks, x)
  {
    ClearedTables(t, d, x);
    SectionsOfConcat(Cleared(t, d).sections, StoredSections(e, d, o, |o|, base), x);
    ChunksOfConcat(Cleared(t, d).chunks, StoredChunks(e, d, o, |o|, base), x);
    StoredSectionsOf(e, d, o, |o|, base, x);
    StoredChunksOfAll(e, d, o, |o|, base, x);
  }

  lemma {:induction false} UnlinkKeepsUnused(chunks: seq<ChunkRow>, ids: set<int>, base: int)
    requires forall c :: c in chunks && c.section.Some? ==> c.section.value < base
    ensures forall c :: c in UnlinkChunks(chunks, ids) && c.section.Some? ==> c.section.value < base
  {
    if chunks != [] {
      UnlinkKeepsUnused(chunks[1..], ids, base);
    }
  }

  lemma {:induction false} SurvivorsKeepUnused(sections: seq<SectionRow>, d: int, ids: set<int>, base: int)
    requires forall r :: r in sections ==> r.id < base && (r.parent.Some? ==> r.parent.value < base)
    ensures forall r :: r in SurvivingSections(sections, d, ids) ==>
      r.id < base && (r.parent.Some? ==> r.parent.value < base)
  {
    if sections != [] {
      SurvivorsKeepUnused(sections[1..], d, ids, base);
    }
  }

  /** The ids above those inserted are still unused. */
  lemma ReplacedKeepsUnused(e: Tools, t: Tables, d: int, o: seq<Content>, base: int)
    requires Unused(t, base)
    ensures Unused(Replaced(e, t, d, o, base), base + |o|)
  {
    ChunksAfterDelete(t.chunks, d, d);
    UnlinkKeepsUnused(DeleteChunks(t.chunks, d), SectionIds(t.sections, d), base);
    SurvivorsKeepUnused(t.sections, d, SectionIds(t.sections, d), base);
    StoredSectionsAreFresh(e, d, o, |o|, base);
    StoredChunksAreFresh(e, d, o, |o|, base);
  }

  /** Links still stay inside documents. */
  lemma ReplacedKeepsLinks(e: Tools, t: Tables, d: int, o: seq<Content>, base: int)
    requires LinksStayInside(t) && Unused(t, base)
    ensures LinksStayInside(Replaced(e, t, d, o, base))
  {
    var r := Replaced(e, t, d, o, base);
    var c := Cleared(t, d);
    ClearedTables(t, d, d);
    StoredSectionsAreFresh(e, d, o, |o|, base);
    StoredChunksAreFresh(e, d, o, |o|, base);
    assert forall s :: s in r.sections ==> (s in c.sections && s in t.sections) || FreshSection(s, d, base, |o|);
    assert forall s :: s in r.chunks ==> (s in c.chunks && s in t.chunks) || FreshChunk(s, d, base, |o|);
  }

  lemma {:induction false} UnlinkKeepsCount(chunks: seq<ChunkRow>, ids: set<int>, d: int)
    ensures |ChunksOf(UnlinkChunks(chunks, ids), d)| == |ChunksOf(chunks, d)|
  {
    if chunks != [] {
      UnlinkKeepsCount(chunks[1..], ids, d);
    }
  }

  /**
    Deleting the sections of a document keeps all its chunks, only unlinking them, because the foreign
    key is SET NULL and not CASCADE.
   */
  lemma {:induction false} SectionDeleteKeepsChunks(chunks: seq<ChunkRow>, ids: set<int>, d: int)
    requires forall c :: c in chunks && c.doc == d ==> PointsInto(c.section, ids)
    ensures |ChunksOf(UnlinkChunks(chunks, ids), d)| == |ChunksOf(chunks, d)|
    ensures forall k :: 0 <= k < |ChunksOf(chunks, d)| ==>
      ChunksOf(UnlinkChunks(chunks, ids), d)[k] == ChunksOf(chunks, d)[k].(section := None)
  {
    UnlinkKeepsCount(chunks, ids, d);
    if chunks != [] {
      SectionDeleteKeepsChunks(chunks[1..], ids, d);
    }
  }

  /**
    Why `index` deletes chunks itself: attaching alone leaves the document with exactly the new chunks
    if and only if it had none before.
   */
  lemma StaleChunksExactly(e: Tools, t: Tables, d: int, o: seq<Content>, base: int)
    ensures ChunksOf(DeleteSections(t, d).chunks + StoredChunks(e, d, o, |o|, base), d)
        == StoredChunks(e, d, o, |o|, base)
      <==> ChunksOf(t.chunks, d) == []
  {
    var left, added := DeleteSections(t, d).chunks, StoredChunks(e, d, o, |o|, base);
    ChunksOfConcat(left, added, d);
    StoredChunksOfAll(e, d, o, |o|, base, d);
    UnlinkKeepsCount(t.chunks, SectionIds(t.sections, d), d);
    assert |ChunksOf(left, d) + added| == |ChunksOf(left, d)| + |added|;
  }

  lemma {:induction false} StoredSectionsLength(e: Tools, d: int, o: seq<Content>, n: nat, base: int)
    requires n <= |o|
    ensures |StoredSections(e, d, o, n, base)| == n
  {
    if n > 0 {
      StoredSectionsLength(e, d, o, n - 1, base);
    }
  }

  lemma {:induction false} LastStoredSection(e: Tools, d: int, o: seq<Content>, k: nat, base: int)
    requires k < |o|
    ensures |StoredSections(e, d, o, k + 1, base)| == k + 1
    ensures StoredSections(e, d, o, k + 1, base)[k] == StoredSection(e, d, o, k, base)
  {
    StoredSectionsLength(e, d, o, k, base);
  }

  /** More sections change nothing before them. */
  lemma {:induction false} StoredSectionStays(e: Tools, d: int, o: seq<Content>, n: nat, base: int, k: nat,
                                              row: SectionRow)
    requires k < n <= |o| && |StoredSections(e, d, o, k + 1, base)| == k + 1
    requires row == StoredSections(e, d, o, k + 1, base)[k]
    ensures |StoredSections(e, d, o, n, base)| == n && StoredSections(e, d, o, n, base)[k] == row
  {
    if k < n - 1 {
      StoredSectionStays(e, d, o, n - 1, base, k, row);
    }
  }

  lemma StoredSectionAt(e: Tools, d: int, o: seq<Content>, n: nat, base: int, k: nat)
    requires k < n <= |o|
    ensures |StoredSections(e, d, o, n, base)| == n
    ensures StoredSections(e, d, o, n, base)[k] == StoredSection(e, d, o, k, base)
  {
    LastStoredSection(e, d, o, k, base);
    StoredSectionStays(e, d, o, n, base, k, StoredSection(e, d, o, k, base));
  }

  /** Row `k` is section `k` of the outline, and its parent is the row of that section's parent. */
  ghost predicate IsSectionOf(e: Tools, rows: seq<SectionRow>, o: seq<Content>, k: nat)
    requires k < |o| == |rows|
  {
    && rows[k].order == k && rows[k].normalized == e.Strip(e.Lower(o[k].text.heading))
    && rows[k].text == o[k].text
    && match Parent(Levels(o), k)
       case None => rows[k].parent == None
       case Some(p) => rows[k].parent == Some(rows[p].id) && rows[p].order < rows[k].order && rows[p].doc == rows[k].doc
  }

  lemma StoredParent(e: Tools, d: int, o: seq<Content>, base: int, rows: seq<SectionRow>, k: nat, p: nat)
    requires rows == StoredSections(e, d, o, |o|, base) && k < |o| == |rows| && Parent(Levels(o), k) == Some(p)
    requires rows[k] == StoredSection(e, d, o, k, base)
    ensures rows[k].parent == Some(rows[p].id) && rows[p].order < rows[k].order && rows[p].doc == rows[k].doc
  {
    StoredSectionAt(e, d, o, |o|, base, p);
  }

  lemma StoredSectionsAreTheOutline(e: Tools, d: int, o: seq<Content>, base: int, rows: seq<SectionRow>, k: nat)
    requires rows == StoredSections(e, d, o, |o|, base) && k < |o|
    ensures |rows| == |o| && rows[k].id == base + k && IsSectionOf(e, rows, o, k)
  {
    StoredSectionAt(e, d, o, |o|, base, k);
    match Parent(Levels(o), k)
    case None =>
    case Some(p) => StoredParent(e, d, o, base, rows, k, p);
  }

  /** The stored tree is the parsed one: ids are distinct, and parents mirror parents in the same document. */
  lemma StoredTreeIsTheOutline(e: Tools, t: Tables, d: int, o: seq<Content>, j: nat, k: nat)
    requires Holds(e, t, d, o) && j <= k < |o|
    ensures var rows := SectionsOf(t.sections, d);
      |rows| == |o| && IsSectionOf(e, rows, o, j) && IsSectionOf(e, rows, o, k) && (j < k ==> rows[j].id != rows[k].id)
  {
    var base :| HoldsFrom(e, t, d, o, base);
    StoredSectionsAreTheOutline(e, d, o, base, SectionsOf(t.sections, d), j);
    StoredSectionsAreTheOutline(e, d, o, base, SectionsOf(t.sections, d), k);
  }

  lemma {:induction false} FindStoredChunk(e: Tools, d: int, o: seq<Content>, n: nat, base: int, c: ChunkRow)
    returns (k: nat, m: nat)
    requires n <= |o| && c in StoredChunks(e, d, o, n, base)
    ensures k < n && m < |o[k].chunks| && c == StoredChunk(e, d, o[k], base + k, m)
  {
    if c in StoredChunks(e, d, o, n - 1, base) {
      k, m := FindStoredChunk(e, d, o, n - 1, base, c);
    } else {
      k := n - 1;
      m := FindChunkOf(e, d, o[k], base + k, |o[k].chunks|, c);
    }
  }

  lemma {:induction false} FindChunkOf(e: Tools, d: int, s: Content, id: int, n: nat, c: ChunkRow) returns (m: nat)
    requires n <= |s.chunks| && c in StoredChunksOf(e, d, s, id, n)
    ensures m < n && c == StoredChunk(e, d, s, id, m)
  {
    if c == StoredChunk(e, d, s, id, n - 1) {
      m := n - 1;
    } else {
      m := FindChunkOf(e, d, s, id, n - 1, c);
    }
  }

  /** The number of chunks of the first `n` sections. */
  function ChunkTotal(o: seq<Content>, n: nat): (total: nat)
    requires n <= |o|
  {
    if n == 0 then 0 else ChunkTotal(o, n - 1) + |o[n - 1].chunks|
  }

  /** Row `r` stores chunk `m` of section `c`, under section id `id`. */
  predicate StoresChunk(e: Tools, r: ChunkRow, d: int, c: Content, id: int, m: nat)
    requires m < |c.chunks|
  {
    && r.doc == d && r.content == c.chunks[m].content && r.order == c.chunks[m].order && r.digest == c.chunks[m].digest
    && r.embedding == Some(e.Embed(c.chunks[m].content)) && r.section == Some(id)
    && r.heading == c.text.heading && r.level == c.text.level && r.kind == c.text.kind
  }

  lemma {:induction false} StoredChunksOfAt(e: Tools, d: int, c: Content, id: int, n: nat)
    requires n <= |c.chunks|
    ensures |StoredChunksOf(e, d, c, id, n)| == n
    ensures forall m :: 0 <= m < n ==> StoresChunk(e, StoredChunksOf(e, d, c, id, n)[m], d, c, id, m)
  {
    if n > 0 {
      StoredChunksOfAt(e, d, c, id, n - 1);
    }
  }

  lemma {:induction false} StoredChunksTotal(e: Tools, d: int, o: seq<Content>, n: nat, base: int)
    requires n <= |o|
    ensures |StoredChunks(e, d, o, n, base)| == ChunkTotal(o, n)
  {
    if n > 0 {
      StoredChunksTotal(e, d, o, n - 1, base);
      StoredChunksOfAt(e, d, o[n - 1], base + n - 1, |o[n - 1].chunks|);
    }
  }

  lemma InSecond(a: seq<ChunkRow>, b: seq<ChunkRow>, x: nat)
    requires |a| <= x < |a + b|
    ensures (a + b)[x] == b[x - |a|]
  {
  }

  lemma LastChunks(e: Tools, d: int, o: seq<Content>, k: nat, base: int, m: nat)
    requires k < |o| && m < |o[k].chunks|
    ensures |StoredChunks(e, d, o, k + 1, base)| == ChunkTotal(o, k + 1)
    ensures StoresChunk(e, StoredChunks(e, d, o, k + 1, base)[ChunkTotal(o, k) + m], d, o[k], base + k, m)
  {
    StoredChunksTotal(e, d, o, k, base);
    StoredChunksTotal(e, d, o, k + 1, base);
    StoredChunksOfAt(e, d, o[k], base + k, |o[k].chunks|);
    InSecond(StoredChunks(e, d, o, k, base), StoredChunksOf(e, d, o[k], base + k, |o[k].chunks|), ChunkTotal(o, k) + m);
  }

  /** More sections change no chunk before them. */
  lemma {:induction false} ChunkStays(e: Tools, d: int, o: seq<Content>, n: nat, base: int, k: nat, x: nat,
                                      row: ChunkRow)
    requires k <= n <= |o| && x < |StoredChunks(e, d, o, k, base)| && StoredChunks(e, d, o, k, base)[x] == row
    ensures x < |StoredChunks(e, d, o, n, base)| && StoredChunks(e, d, o, n, base)[x] == row
  {
    if k < n {
      ChunkStays(e, d, o, n - 1, base, k, x, row);
    }
  }

  /** Chunk `m` of section `k` is stored after all chunks of the sections before, in order. */
  lemma StoredChunkAt(e: Tools, d: int, o: seq<Content>, n: nat, base: int, k: nat, m: nat)
    requires k < n <= |o| && m < |o[k].chunks|
    ensures ChunkTotal(o, k) + m < |StoredChunks(e, d, o, n, base)|
    ensures StoresChunk(e, StoredChunks(e, d, o, n, base)[ChunkTotal(o, k) + m], d, o[k], base + k, m)
  {
    LastChunks(e, d, o, k, base, m);
    ChunkStays(e, d, o, n, base, k + 1, ChunkTotal(o, k) + m, StoredChunks(e, d, o, k + 1, base)[ChunkTotal(o, k) + m]);
  }

  /**
    Every chunk of the outline is stored and nothing else: the chunk rows of the document are as many as the
    outline has chunks, and each is at its place, hanging on the row of its section.
   */
  lemma EveryChunkIsStored(e: Tools, t: Tables, d: int, o: seq<Content>, k: nat, m: nat)
    requires Holds(e, t, d, o) && k < |o| && m < |o[k].chunks|
    ensures |SectionsOf(t.sections, d)| == |o| && |ChunksOf(t.chunks, d)| == ChunkTotal(o, |o|)
    ensures ChunkTotal(o, k) + m < ChunkTotal(o, |o|)
    ensures StoresChunk(e, ChunksOf(t.chunks, d)[ChunkTotal(o, k) + m], d, o[k], SectionsOf(t.sections, d)[k].id, m)
  {
    var base :| HoldsFrom(e, t, d, o, base);
    StoredChunksTotal(e, d, o, |o|, base);
    StoredChunkAt(e, d, o, |o|, base, k, m);
    SectionRowAt(e, d, o, base, SectionsOf(t.sections, d), k);
  }

  lemma SectionRowAt(e: Tools, d: int, o: seq<Content>, base: int, rows: seq<SectionRow>, k: nat)
    requires rows == StoredSections(e, d, o, |o|, base) && k < |o|
    ensures |rows| == |o| && rows[k].id == base + k && rows[k].text == o[k].text
  {
    StoredSectionAt(e, d, o, |o|, base, k);
  }

  /** No stored chunk is orphaned: each has its own text's embedding and hangs on a section row of its document. */
  lemma StoredChunksHangOnSections(e: Tools, t: Tables, d: int, o: seq<Content>, c: ChunkRow)
    requires Holds(e, t, d, o) && c in ChunksOf(t.chunks, d)
    ensures c.embedding == Some(e.Embed(c.content))
    ensures exists s :: s in SectionsOf(t.sections, d) && c.section == Some(s.id) && c.heading == s.text.heading
                        && c.level == s.text.level
  {
    var base :| HoldsFrom(e, t, d, o, base);
    var k, m := FindStoredChunk(e, d, o, |o|, base, c);
    SectionRowAt(e, d, o, base, SectionsOf(t.sections, d), k);
    assert SectionsOf(t.sections, d)[k] in SectionsOf(t.sections, d);
  }
}
