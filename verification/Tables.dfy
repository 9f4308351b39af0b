/** The document, section and chunk tables of db.py, and the statements the pipeline runs on them. */
module Tables {
  import opened Common
  import opened Hashing
  import opened SectionForest
  import opened DocumentChunker

  datatype Status = Pending | Processing | Ready | Failed(reason: string) | Other(state: string)

  /** A document row; its id is its position in the table. */
  datatype Row = Row(title: string, kind: DocumentType, space: nat, uniqueHash: Option<string>, contentHash: string,
    source: Option<string>, metadata: string, content: string, embedding: Option<Vector>, status: Status,
    updatedAt: int)

  datatype SectionRow = SectionRow(id: int, doc: int, normalized: string, parent: Option<int>, order: int,
    text: SectionText)

  datatype ChunkRow = ChunkRow(doc: int, content: string, embedding: Option<Vector>, section: Option<int>,
    order: int, heading: string, level: int, kind: string, digest: string)

  datatype Tables = Tables(docs: seq<Row>, sections: seq<SectionRow>, chunks: seq<ChunkRow>)

  /** The unique constraints on the two hash columns; NULLs do not collide. */
  predicate Clash(a: Row, b: Row) {
    a.contentHash == b.contentHash || (a.uniqueHash.Some? && a.uniqueHash == b.uniqueHash)
  }

  predicate Unique(docs: seq<Row>) {
    forall i, j :: 0 <= i < j < |docs| ==> !Clash(docs[i], docs[j])
  }

  // ---------- chunks ----------

  function ChunksOf(chunks: seq<ChunkRow>, d: int): seq<ChunkRow> {
    if chunks == [] then []
    else if chunks[0].doc == d then [chunks[0]] + ChunksOf(chunks[1..], d)
    else ChunksOf(chunks[1..], d)
  }

  /** `DELETE FROM chunks WHERE document_id = d`. */
  function DeleteChunks(chunks: seq<ChunkRow>, d: int): seq<ChunkRow> {
    if chunks == [] then []
    else if chunks[0].doc == d then DeleteChunks(chunks[1..], d)
    else [chunks[0]] + DeleteChunks(chunks[1..], d)
  }

  predicate PointsInto(link: Option<int>, ids: set<int>) {
    link.Some? && link.value in ids
  }

  function Unlink(link: Option<int>, ids: set<int>): Option<int> {
    if PointsInto(link, ids) then None else link
  }

  /** `ON DELETE SET NULL` on `chunks.section_id`. */
  function UnlinkChunks(chunks: seq<ChunkRow>, ids: set<int>): seq<ChunkRow> {
    if chunks == [] then []
    else [chunks[0].(section := Unlink(chunks[0].section, ids))] + UnlinkChunks(chunks[1..], ids)
  }

  // ---------- sections ----------

  function SectionsOf(sections: seq<SectionRow>, d: int): seq<SectionRow> {
    if sections == [] then []
    else if sections[0].doc == d then [sections[0]] + SectionsOf(sections[1..], d)
    else SectionsOf(sections[1..], d)
  }

  function SectionIds(sections: seq<SectionRow>, d: int): set<int> {
    if sections == [] then {}
    else if sections[0].doc == d then {sections[0].id} + SectionIds(sections[1..], d)
    else SectionIds(sections[1..], d)
  }

  /** The rows that survive deleting those of `d`, with `ON DELETE SET NULL` on `parent_section_id`. */
  function SurvivingSections(sections: seq<SectionRow>, d: int, ids: set<int>): seq<SectionRow> {
    if sections == [] then []
    else if sections[0].doc == d then SurvivingSections(sections[1..], d, ids)
    else [sections[0].(parent := Unlink(sections[0].parent, ids))] + SurvivingSections(sections[1..], d, ids)
  }

  /** `DELETE FROM document_sections WHERE document_id = d`. */
  function DeleteSections(t: Tables, d: int): Tables {
    var ids := SectionIds(t.sections, d);
    t.(sections := SurvivingSections(t.sections, d, ids), chunks := UnlinkChunks(t.chunks, ids))
  }

  // ---------- what indexing stores ----------

  function ParentId(levels: seq<int>, k: nat, base: int): Option<int>
    requires k < |levels|
  {
    match Parent(levels, k)
    case None => None
    case Some(p) => Some(base + p)
  }

  function StoredSection(e: Tools, d: int, o: seq<Content>, k: nat, base: int): SectionRow
    requires k < |o|
  {
    SectionRow(base + k, d, e.Strip(e.Lower(o[k].text.heading)), ParentId(Levels(o), k, base), k, o[k].text)
  }

  /** The section rows of the first `n` sections of outline `o`, with ids from `base` on. */
  function StoredSections(e: Tools, d: int, o: seq<Content>, n: nat, base: int): seq<SectionRow>
    requires n <= |o|
  {
    if n == 0 then [] else StoredSections(e, d, o, n - 1, base) + [StoredSection(e, d, o, n - 1, base)]
  }

  function StoredChunk(e: Tools, d: int, c: Content, id: int, m: nat): ChunkRow
    requires m < |c.chunks|
  {
    ChunkRow(d, c.chunks[m].content, Some(e.Embed(c.chunks[m].content)), Some(id), c.chunks[m].order,
             c.text.heading, c.text.level, c.text.kind, c.chunks[m].digest)
  }

  function StoredChunksOf(e: Tools, d: int, c: Content, id: int, m: nat): seq<ChunkRow>
    requires m <= |c.chunks|
  {
    if m == 0 then [] else StoredChunksOf(e, d, c, id, m - 1) + [StoredChunk(e, d, c, id, m - 1)]
  }

  /** The chunk rows of the first `n` sections, each with the embedding of its own text. */
  function StoredChunks(e: Tools, d: int, o: seq<Content>, n: nat, base: int): seq<ChunkRow>
    requires n <= |o|
  {
    if n == 0 then []
    else StoredChunks(e, d, o, n - 1, base) +
         StoredChunksOf(e, d, o[n - 1], base + n - 1, |o[n - 1].chunks|)
  }

  /** Document `d` has exactly the sections and chunks of outline `o`. */
  ghost predicate Holds(e: Tools, t: Tables, d: int, o: seq<Content>) {
    exists base :: HoldsFrom(e, t, d, o, base)
  }

  ghost predicate HoldsFrom(e: Tools, t: Tables, d: int, o: seq<Content>, base: int) {
    && SectionsOf(t.sections, d) == StoredSections(e, d, o, |o|, base)
    && ChunksOf(t.chunks, d) == StoredChunks(e, d, o, |o|, base)
  }

  /** Links never leave a document. */
  ghost predicate LinksStayInside(t: Tables) {
    && (forall c, s :: c in t.chunks && s in t.sections && c.section == Some(s.id) ==> c.doc == s.doc)
    && (forall r, s :: r in t.sections && s in t.sections && r.parent == Some(s.id) ==> r.doc == s.doc)
  }

  /** Section ids from `base` on are unused. */
  ghost predicate Unused(t: Tables, base: int) {
    && (forall s :: s in t.sections ==> s.id < base)
    && (forall c :: c in t.chunks && c.section.Some? ==> c.section.value < base)
    && (forall s :: s in t.sections && s.parent.Some? ==> s.parent.value < base)
  }

  // ---------- lemmas ----------

  lemma {:induction false} SectionIdsMeaning(sections: seq<SectionRow>, d: int, id: int)
    ensures id in SectionIds(sections, d) <==> exists s :: s in sections && s.doc == d && s.id == id
  {
    if sections != [] {
      SectionIdsMeaning(sections[1..], d, id);
      assert sections == [sections[0]] + sections[1..];
    }
  }

  lemma {:induction false} ChunksOfConcat(a: seq<ChunkRow>, b: seq<ChunkRow>, d: int)
    ensures ChunksOf(a + b, d) == ChunksOf(a, d) + ChunksOf(b, d)
  {
    if a == [] {
      assert a + b == b;
    } else {
      assert (a + b)[1..] == a[1..] + b;
      ChunksOfConcat(a[1..], b, d);
    }
  }

  lemma {:induction false} SectionsOfConcat(a: seq<SectionRow>, b: seq<SectionRow>, d: int)
    ensures SectionsOf(a + b, d) == SectionsOf(a, d) + SectionsOf(b, d)
  {
    if a == [] {
      assert a + b == b;
    } else {
      assert (a + b)[1..] == a[1..] + b;
      SectionsOfConcat(a[1..], b, d);
    }
  }

  lemma {:induction false} ChunksAfterDelete(chunks: seq<ChunkRow>, d: int, x: int)
    ensures ChunksOf(DeleteChunks(chunks, d), x) == if x == d then [] else ChunksOf(chunks, x)
    ensures forall c :: c in DeleteChunks(chunks, d) ==> c in chunks && c.doc != d
  {
    if chunks != [] {
      ChunksAfterDelete(chunks[1..], d, x);
    }
  }

  lemma {:induction false} UnlinkNothing(chunks: seq<ChunkRow>, ids: set<int>)
    requires forall c :: c in chunks ==> !PointsInto(c.section, ids)
    ensures UnlinkChunks(chunks, ids) == chunks
  {
    if chunks != [] {
      UnlinkNothing(chunks[1..], ids);
    }
  }

  lemma {:induction false} SectionsAfterDelete(sections: seq<SectionRow>, d: int, ids: set<int>, x: int)
    requires forall r :: r in sections && r.doc != d ==> !PointsInto(r.parent, ids)
    ensures SectionsOf(SurvivingSections(sections, d, ids), x) == if x == d then [] else SectionsOf(sections, x)
    ensures forall r :: r in SurvivingSections(sections, d, ids) ==> r in sections && r.doc != d
  {
    if sections != [] {
      SectionsAfterDelete(sections[1..], d, ids, x);
    }
  }

  lemma {:induction false} StoredSectionsOf(e: Tools, d: int, o: seq<Content>, n: nat, base: int, x: int)
    requires n <= |o|
    ensures SectionsOf(StoredSections(e, d, o, n, base), x) == if x == d then StoredSections(e, d, o, n, base) else []
  {
    if n > 0 {
      StoredSectionsOf(e, d, o, n - 1, base, x);
      SectionsOfConcat(StoredSections(e, d, o, n - 1, base), [StoredSection(e, d, o, n - 1, base)], x);
    }
  }

  lemma {:induction false} StoredChunksOfOne(e: Tools, d: int, c: Content, id: int, m: nat, x: int)
    requires m <= |c.chunks|
    ensures ChunksOf(StoredChunksOf(e, d, c, id, m), x) == if x == d then StoredChunksOf(e, d, c, id, m) else []
  {
    if m > 0 {
      StoredChunksOfOne(e, d, c, id, m - 1, x);
      ChunksOfConcat(StoredChunksOf(e, d, c, id, m - 1), [StoredChunk(e, d, c, id, m - 1)], x);
    }
  }

  lemma {:induction false} StoredChunksOfAll(e: Tools, d: int, o: seq<Content>, n: nat, base: int, x: int)
    requires n <= |o|
    ensures ChunksOf(StoredChunks(e, d, o, n, base), x) == if x == d then StoredChunks(e, d, o, n, base) else []
  {
    if n > 0 {
      var last := StoredChunksOf(e, d, o[n - 1], base + n - 1, |o[n - 1].chunks|);
      StoredChunksOfAll(e, d, o, n - 1, base, x);
      StoredChunksOfOne(e, d, o[n - 1], base + n - 1, |o[n - 1].chunks|, x);
      ChunksOfConcat(StoredChunks(e, d, o, n - 1, base), last, x);
    }
  }

  // ---------- what the selections and deletions mean ----------

  /** The chunks of a document: all its rows, as often as they occur. */
  lemma {:induction false} ChunksOfMeans(chunks: seq<ChunkRow>, d: int, c: ChunkRow)
    ensures multiset(ChunksOf(chunks, d))[c] == if c.doc == d then multiset(chunks)[c] else 0
  {
    if chunks != [] {
      assert chunks == [chunks[0]] + chunks[1..];
      ChunksOfMeans(chunks[1..], d, c);
    }
  }

  lemma {:induction false} SectionsOfMeans(sections: seq<SectionRow>, d: int, r: SectionRow)
    ensures multiset(SectionsOf(sections, d))[r] == if r.doc == d then multiset(sections)[r] else 0
  {
    if sections != [] {
      assert sections == [sections[0]] + sections[1..];
      SectionsOfMeans(sections[1..], d, r);
    }
  }

  /** `SET NULL`: a link to a deleted section is cleared, every other one stays, and so does the rest of the row. */
  lemma {:induction false} UnlinkMeans(chunks: seq<ChunkRow>, ids: set<int>)
    ensures |UnlinkChunks(chunks, ids)| == |chunks|
    ensures forall k :: 0 <= k < |chunks| ==>
      UnlinkChunks(chunks, ids)[k] ==
        if chunks[k].section.Some? && chunks[k].section.value in ids then chunks[k].(section := None) else chunks[k]
  {
    if chunks != [] {
      UnlinkMeans(chunks[1..], ids);
    }
  }
}
