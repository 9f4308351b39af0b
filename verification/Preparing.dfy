/** The batch diff of `prepare_for_indexing`, as a function of the table and the batch. */
module Preparing {
  import opened Common
  import opened Hashing
  import opened DocumentChunker
  import opened Tables

  const PLACEHOLDER: string := "Pending..."

  /** `encodable` says whether the text can be encoded as UTF-8; hashing raises when it cannot. */
  datatype ConnectorDocument = ConnectorDocument(title: string, markdown: string, uniqueId: string,
    kind: DocumentType, space: nat, shouldSummarize: bool, fallbackSummary: Option<string>, metadata: string,
    encodable: bool)

  /** A document with the two hashes computed for it. */
  datatype Keyed = Keyed(doc: ConnectorDocument, unique: string, content: string)

  function UniqueHash(e: Tools, c: ConnectorDocument): string {
    e.Sha256(UniqueIdentifierKey(c.kind, c.uniqueId, c.space))
  }

  function ContentHash(e: Tools, c: ConnectorDocument): string {
    e.Sha256(ContentKey(c.space, c.markdown))
  }

  function Key(e: Tools, c: ConnectorDocument): Keyed {
    Keyed(c, UniqueHash(e, c), ContentHash(e, c))
  }

  function KeyAll(e: Tools, batch: seq<ConnectorDocument>): (r: seq<Keyed>)
    ensures |r| == |batch|
  {
    if batch == [] then [] else KeyAll(e, batch[..|batch| - 1]) + [Key(e, batch[|batch| - 1])]
  }

  /** `select ... where unique_identifier_hash = u`, first row. */
  function FindUnique(docs: seq<Row>, u: string): (r: Option<int>)
    ensures r.Some? ==> 0 <= r.value < |docs| && docs[r.value].uniqueHash == Some(u)
    ensures r.None? ==> forall i :: 0 <= i < |docs| ==> docs[i].uniqueHash != Some(u)
  {
    if docs == [] then None
    else if docs[|docs| - 1].uniqueHash == Some(u) then Some(|docs| - 1)
    else FindUnique(docs[..|docs| - 1], u)
  }

  predicate HasContent(docs: seq<Row>, h: string) {
    exists i :: 0 <= i < |docs| && docs[i].contentHash == h
  }

  function NewRow(c: Keyed, now: int): Row {
    Row(c.doc.title, c.doc.kind, c.doc.space, Some(c.unique), c.content, Some(c.doc.markdown), c.doc.metadata,
        PLACEHOLDER, None, Pending, now)
  }

  predicate Changed(row: Row, c: Keyed) {
    row.contentHash != c.content
  }

  /** A row must be indexed when its content changed or it is not ready. */
  predicate NeedsIndexing(row: Row, c: Keyed) {
    Changed(row, c) || row.status != Ready
  }

  function Retitled(row: Row, c: Keyed, now: int): Row {
    if row.title != c.doc.title then row.(title := c.doc.title, updatedAt := now) else row
  }

  /** What the batch does to the existing row of document `c`. */
  function Touched(row: Row, c: Keyed, now: int): Row {
    if Changed(row, c) then
      row.(title := c.doc.title, contentHash := c.content, source := Some(c.doc.markdown), metadata := c.doc.metadata,
           updatedAt := now, status := Pending)
    else if row.status != Ready then
      Retitled(row, c, now).(status := Pending, updatedAt := now)
    else
      Retitled(row, c, now)
  }

  /** The table as the transaction sees it, the documents to return, and the identifiers seen. */
  datatype Plan = Plan(docs: seq<Row>, ids: seq<int>, seen: set<string>)

  /** One turn of the loop, when nothing raises but hashing. */
  function Turn(p: Plan, c: Keyed, now: int): Plan {
    var u := c.unique;
    if !c.doc.encodable || u in p.seen then p
    else
      var q := p.(seen := p.seen + {u});
      match FindUnique(p.docs, u)
      case Some(i) =>
        q.(docs := p.docs[i := Touched(p.docs[i], c, now)],
           ids := if NeedsIndexing(p.docs[i], c) then p.ids + [i] else p.ids)
      case None =>
        if HasContent(p.docs, c.content) then q
        else q.(docs := p.docs + [NewRow(c, now)], ids := p.ids + [|p.docs|])
  }

  /** The first `n` turns; a flush that breaks a unique constraint loses the transaction. */
  function Prepare(docs: seq<Row>, batch: seq<Keyed>, n: nat, now: int): Option<Plan>
    requires n <= |batch|
  {
    if n == 0 then Some(Plan(docs, [], {}))
    else
      match Prepare(docs, batch, n - 1, now)
      case None => None
      case Some(p) =>
        var q := Turn(p, batch[n - 1], now);
        if Unique(q.docs) then Some(q) else None
  }

  /** The first of the first `n` documents with unique identifier hash `u`. */
  function FirstFor(batch: seq<Keyed>, n: nat, u: string): (r: Option<int>)
    requires n <= |batch|
    ensures r.Some? ==> 0 <= r.value < n
  {
    if n == 0 then None
    else
      var r := FirstFor(batch, n - 1, u);
      if r.None? && batch[n - 1].doc.encodable && batch[n - 1].unique == u then Some(n - 1) else r
  }

  /** What "first" means. */
  lemma {:induction false} FirstForMeans(batch: seq<Keyed>, n: nat, u: string, k: int)
    requires n <= |batch|
    ensures FirstFor(batch, n, u) == Some(k) <==>
      && 0 <= k < n && batch[k].doc.encodable && batch[k].unique == u
      && forall j :: 0 <= j < k && batch[j].doc.encodable ==> batch[j].unique != u
    ensures FirstFor(batch, n, u) == None <==> forall j :: 0 <= j < n && batch[j].doc.encodable ==> batch[j].unique != u
  {
    if n > 0 {
      FirstForMeans(batch, n - 1, u, k);
      if FirstFor(batch, n - 1, u).Some? {
        FirstForMeans(batch, n - 1, u, FirstFor(batch, n - 1, u).value);
      }
    }
  }

  /** The fate of an existing row: touched by the first document with its identifier, if any. */
  function RowAfter(row: Row, batch: seq<Keyed>, n: nat, now: int): Row
    requires n <= |batch|
  {
    if row.uniqueHash == None then row
    else match FirstFor(batch, n, row.uniqueHash.value)
         case None => row
         case Some(k) => Touched(row, batch[k], now)
  }

  predicate Returned(row: Row, batch: seq<Keyed>, n: nat)
    requires n <= |batch|
  {
    row.uniqueHash.Some? && FirstFor(batch, n, row.uniqueHash.value).Some? &&
    NeedsIndexing(row, batch[FirstFor(batch, n, row.uniqueHash.value).value])
  }
}
