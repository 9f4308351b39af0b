/** Every committed state of every run of prepares and indexings. */
module IndexingRuns {
  import opened Common
  import opened Hashing
  import opened DocumentChunker
  import opened Tables
  import opened IndexTransaction
  import opened Preparing
  import opened PrepareTheorems
  import opened PrepareConvergence

  /** What is assumed of the libraries: headings are well formed and SHA-256 does not collide. */
  ghost predicate Sound(e: Tools) {
    && (forall md :: ValidMatches(md, e.FindHeadings(md)))
    && (forall a, b :: e.Sha256(a) == e.Sha256(b) ==> a == b)
  }

  /** The commits the pipeline can make. */
  datatype Event =
    | Prepared(batch: seq<ConnectorDocument>, now: int)
    | Started(d: int)
    | Restarted(d: int, doc: ConnectorDocument)
    | Finished(d: int, doc: ConnectorDocument, content: string, base: int, now: int)
    | GaveUp(d: int, reason: string, now: int)

  function FinishedRow(e: Tools, row: Row, content: string, now: int): Row {
    row.(content := content, embedding := Some(e.Embed(content)), status := Ready, updatedAt := now)
  }

  /** `DocumentStatus.failed` keeps the first 500 characters of the reason. */
  function FailedRow(row: Row, reason: string, now: int): Row {
    row.(status := Failed(Prefix(reason, 500)), updatedAt := now)
  }

  /** A connector document made from the row's own source, as re-indexing an edited document does. */
  predicate Rebuilt(row: Row, doc: ConnectorDocument) {
    row.source == Some(doc.markdown) && row.space == doc.space
  }

  /** What the first commit of `index` stores when its caller has set a new content hash. */
  function RestartedDocs(e: Tools, t: Tables, d: int, doc: ConnectorDocument): seq<Row>
    requires 0 <= d < |t.docs|
  {
    t.docs[d := t.docs[d].(contentHash := ContentHash(e, doc), status := Processing)]
  }

  ghost predicate Possible(e: Tools, t: Tables, ev: Event)
    requires Sound(e)
  {
    match ev
    case Prepared(batch, now) => Prepare(t.docs, KeyAll(e, batch), |KeyAll(e, batch)|, now).Some?
    case Started(d) => 0 <= d < |t.docs|
    case Restarted(d, doc) => 0 <= d < |t.docs| && Rebuilt(t.docs[d], doc) && Unique(RestartedDocs(e, t, d, doc))
    case Finished(d, doc, content, base, now) =>
      0 <= d < |t.docs| && t.docs[d].contentHash == ContentHash(e, doc) && Unused(t, base)
    case GaveUp(d, reason, now) => 0 <= d < |t.docs|
  }

  ghost function Apply(e: Tools, t: Tables, ev: Event): Tables
    requires Sound(e) && Possible(e, t, ev)
  {
    match ev
    case Prepared(batch, now) =>
      t.(docs := Prepare(t.docs, KeyAll(e, batch), |KeyAll(e, batch)|, now).value.docs)
    case Started(d) => t.(docs := t.docs[d := t.docs[d].(status := Processing)])
    case Restarted(d, doc) => t.(docs := RestartedDocs(e, t, d, doc))
    case Finished(d, doc, content, base, now) =>
      Replaced(e, t, d, Outline(e, doc.markdown), base).(docs := t.docs[d := FinishedRow(e, t.docs[d], content, now)])
    case GaveUp(d, reason, now) => t.(docs := t.docs[d := FailedRow(t.docs[d], reason, now)])
  }

  /** Every event of the run was possible when it happened. */
  ghost predicate IsRun(e: Tools, t: Tables, evs: seq<Event>)
    requires Sound(e)
    decreases |evs|
  {
    evs == [] || (Possible(e, t, evs[0]) && IsRun(e, Apply(e, t, evs[0]), evs[1..]))
  }

  ghost function Replay(e: Tools, t: Tables, evs: seq<Event>): Tables
    requires Sound(e) && IsRun(e, t, evs)
    decreases |evs|
  {
    if evs == [] then t else Replay(e, Apply(e, t, evs[0]), evs[1..])
  }

  lemma RunOfOne(e: Tools, t: Tables, a: Event)
    requires Sound(e) && Possible(e, t, a)
    ensures IsRun(e, t, [a]) && Replay(e, t, [a]) == Apply(e, t, a)
  {
    assert [a][1..] == [];
  }

  lemma RunOfTwo(e: Tools, t: Tables, a: Event, b: Event)
    requires Sound(e) && Possible(e, t, a) && Possible(e, Apply(e, t, a), b)
    ensures IsRun(e, t, [a, b]) && Replay(e, t, [a, b]) == Apply(e, Apply(e, t, a), b)
  {
    assert [a, b][1..] == [b];
    RunOfOne(e, Apply(e, t, a), b);
  }

  /** The identifier hash of the row is that of its own type and search space. */
  ghost predicate Named(e: Tools, row: Row) {
    exists id :: row.uniqueHash == Some(e.Sha256(UniqueIdentifierKey(row.kind, id, row.space)))
  }

  /** And its content hash is that of the text it stores. */
  ghost predicate Honest(e: Tools, row: Row) {
    Named(e, row) && row.source.Some? && row.contentHash == e.Sha256(ContentKey(row.space, row.source.value))
  }

  /** An honest row which, when ready, has exactly the sections and chunks of the text it stores. */
  ghost predicate RowOk(e: Tools, t: Tables, d: int)
    requires Sound(e) && 0 <= d < |t.docs|
  {
    Honest(e, t.docs[d]) && (t.docs[d].status == Ready ==> Holds(e, t, d, Outline(e, t.docs[d].source.value)))
  }

  /** Required of the whole table; its rows may come from anywhere. */
  ghost predicate Tidy(t: Tables) {
    Unique(t.docs) && LinksStayInside(t)
  }

  // ---------- prepare ----------

  /** The identifier hash pins the type and search space of a document. */
  lemma NamePins(e: Tools, row: Row, c: ConnectorDocument)
    requires Sound(e) && Named(e, row) && row.uniqueHash == Some(UniqueHash(e, c))
    ensures row.kind == c.kind && row.space == c.space
  {
    var id :| row.uniqueHash == Some(e.Sha256(UniqueIdentifierKey(row.kind, id, row.space)));
    UniqueIdentifierKeyInjective(row.kind, id, row.space, c.kind, c.uniqueId, c.space);
  }

  lemma NamedStays(e: Tools, row: Row, row': Row)
    requires row'.uniqueHash == row.uniqueHash && row'.space == row.space && row'.kind == row.kind
    ensures Named(e, row) ==> Named(e, row')
  {
    if Named(e, row) {
      var id :| row.uniqueHash == Some(e.Sha256(UniqueIdentifierKey(row.kind, id, row.space)));
      assert row'.uniqueHash == Some(e.Sha256(UniqueIdentifierKey(row'.kind, id, row'.space)));
    }
  }

  /** A rewritten row becomes honest, whatever placeholder its content hash was before. */
  lemma RewrittenBecomesHonest(e: Tools, row: Row, c: ConnectorDocument, now: int)
    requires Sound(e) && Named(e, row) && row.uniqueHash == Some(UniqueHash(e, c))
    requires Changed(row, Key(e, c)) || Honest(e, row)
    ensures Honest(e, Touched(row, Key(e, c), now))
  {
    NamePins(e, row, c);
    NamedStays(e, row, Touched(row, Key(e, c), now));
  }

  /** An identifier hash never equals a content hash, so a row that stores the first as the second is rewritten. */
  lemma PlaceholderIsRewritten(e: Tools, row: Row, c: ConnectorDocument)
    requires Sound(e) && row.uniqueHash == Some(row.contentHash) && row.uniqueHash == Some(UniqueHash(e, c))
    ensures Changed(row, Key(e, c))
  {
    if !Changed(row, Key(e, c)) {
      var rest := c.uniqueId + ":" + Decimal(c.space);
      assert UniqueIdentifierKey(c.kind, c.uniqueId, c.space) == c.kind.Value() + ":" + rest;
      TypeValuesDistinct(c.kind, c.kind);
      FirstColonSplits(c.kind.Value(), rest, Decimal(c.space), c.markdown);
      TypeIsNoNumber(c.kind, c.space);
    }
  }

  /** The identifier hash tells documents apart by type, id and search space, and by nothing else. */
  lemma UniqueHashExactly(e: Tools, a: ConnectorDocument, b: ConnectorDocument)
    requires Sound(e)
    ensures UniqueHash(e, a) == UniqueHash(e, b) <==> a.kind == b.kind && a.uniqueId == b.uniqueId && a.space == b.space
  {
    if UniqueHash(e, a) == UniqueHash(e, b) {
      UniqueIdentifierKeyInjective(a.kind, a.uniqueId, a.space, b.kind, b.uniqueId, b.space);
    }
  }

  /** The content hash tells them apart by search space and text. */
  lemma ContentHashExactly(e: Tools, a: ConnectorDocument, b: ConnectorDocument)
    requires Sound(e)
    ensures ContentHash(e, a) == ContentHash(e, b) <==> a.space == b.space && a.markdown == b.markdown
  {
    if ContentHash(e, a) == ContentHash(e, b) {
      ContentKeyInjective(a.space, a.markdown, b.space, b.markdown);
    }
  }

  /** The row carries the identifier hash of its own type and search space and of `id`. */
  predicate NamedBy(e: Tools, row: Row, id: string) {
    row.uniqueHash == Some(e.Sha256(UniqueIdentifierKey(row.kind, id, row.space)))
  }

  lemma OwnRowOnly(e: Tools, row: Row, id: string, c: ConnectorDocument)
    requires Sound(e) && NamedBy(e, row, id)
    ensures row.uniqueHash == Some(UniqueHash(e, c)) <==> row.kind == c.kind && id == c.uniqueId && row.space == c.space
  {
    if row.uniqueHash == Some(UniqueHash(e, c)) {
      UniqueIdentifierKeyInjective(row.kind, id, row.space, c.kind, c.uniqueId, c.space);
    }
  }

  /** A committed prepare touches or returns a row only for a document of the row's own type, id and search space. */
  lemma ChangedRowIsOwn(e: Tools, t: Tables, batch: seq<ConnectorDocument>, now: int, d: int, id: string)
    returns (k: int)
    requires Sound(e) && Tidy(t) && Possible(e, t, Prepared(batch, now)) && 0 <= d < |t.docs|
    requires NamedBy(e, t.docs[d], id)
    requires var p := Prepare(t.docs, KeyAll(e, batch), |batch|, now).value;
      d in p.ids || (d < |p.docs| ==> p.docs[d] != t.docs[d])
    ensures 0 <= k < |batch| && batch[k].encodable
    ensures batch[k].kind == t.docs[d].kind && batch[k].uniqueId == id && batch[k].space == t.docs[d].space
  {
    var keys, u := KeyAll(e, batch), t.docs[d].uniqueHash.value;
    if forall k :: 0 <= k < |keys| && keys[k].doc.encodable ==> keys[k].unique != u {
      RowOfNobody(t.docs, keys, now, d);
      assert false;
    }
    k :| 0 <= k < |keys| && keys[k].doc.encodable && keys[k].unique == u;
    KeyAllAt(e, batch, k);
    OwnRowOnly(e, t.docs[d], id, batch[k]);
  }

  /** A row inserted by a committed prepare has the identity of its document. */
  lemma InsertedRowIsOwn(e: Tools, t: Tables, batch: seq<ConnectorDocument>, now: int, d: int) returns (k: int)
    requires Sound(e) && Tidy(t) && Possible(e, t, Prepared(batch, now))
    requires |t.docs| <= d < |Apply(e, t, Prepared(batch, now)).docs|
    ensures 0 <= k < |batch|
    ensures var r := Apply(e, t, Prepared(batch, now)).docs[d];
      && r.kind == batch[k].kind && r.space == batch[k].space && NamedBy(e, r, batch[k].uniqueId)
      && r.source == Some(batch[k].markdown) && r.title == batch[k].title
  {
    k := RowOfNewDocument(t.docs, KeyAll(e, batch), now, d);
    KeyAllAt(e, batch, k);
  }

  lemma NewIsHonest(e: Tools, c: ConnectorDocument, now: int)
    requires Sound(e)
    ensures Honest(e, NewRow(Key(e, c), now))
  {
    var r := NewRow(Key(e, c), now);
    assert r.uniqueHash == Some(e.Sha256(UniqueIdentifierKey(r.kind, c.uniqueId, r.space)));
  }

  lemma {:induction false} KeyAllAt(e: Tools, batch: seq<ConnectorDocument>, k: int)
    requires 0 <= k < |batch|
    ensures KeyAll(e, batch)[k] == Key(e, batch[k])
  {
    if k < |batch| - 1 {
      KeyAllAt(e, batch[..|batch| - 1], k);
    }
  }

  lemma FirstForHits(batch: seq<Keyed>, n: nat, u: string)
    requires n <= |batch| && FirstFor(batch, n, u).Some?
    ensures batch[FirstFor(batch, n, u).value].unique == u
  {
    FirstForMeans(batch, n, u, FirstFor(batch, n, u).value);
  }

  /** A named row that is honest already, or rewritten by the batch, is honest afterwards. */
  lemma OldRowTurnsHonest(e: Tools, row: Row, batch: seq<ConnectorDocument>, now: int, row': Row)
    requires Sound(e) && Named(e, row) && row' == RowAfter(row, KeyAll(e, batch), |batch|, now)
    requires Honest(e, row) || HashAfter(row, KeyAll(e, batch), |batch|) != row.contentHash
    ensures Honest(e, row')
  {
    match FirstFor(KeyAll(e, batch), |batch|, row.uniqueHash.value)
    case None =>
    case Some(k) =>
      FirstForHits(KeyAll(e, batch), |batch|, row.uniqueHash.value);
      KeyAllAt(e, batch, k);
      RewrittenBecomesHonest(e, row, batch[k], now);
  }

  /** A row that is ready after the batch was ready before, with the same text. */
  lemma ReadyKeepsText(row: Row, keys: seq<Keyed>, now: int)
    ensures RowAfter(row, keys, |keys|, now).status == Ready ==>
      row.status == Ready && RowAfter(row, keys, |keys|, now).source == row.source
      && HashAfter(row, keys, |keys|) == row.contentHash
  {
  }

  lemma HoldsDependsOnRows(e: Tools, t: Tables, t': Tables, d: int, o: seq<Content>)
    requires Holds(e, t, d, o)
    requires SectionsOf(t'.sections, d) == SectionsOf(t.sections, d) && ChunksOf(t'.chunks, d) == ChunksOf(t.chunks, d)
    ensures Holds(e, t', d, o)
  {
    var base :| HoldsFrom(e, t, d, o, base);
    assert HoldsFrom(e, t', d, o, base);
  }

  /**
    The rows an event brings into the pipeline's care: rows it inserts, named rows it gives a new
    content hash together with the text, and honest rows it indexes.
   */
  ghost predicate Enters(e: Tools, t: Tables, ev: Event, d: int)
    requires Sound(e) && Possible(e, t, ev)
  {
    match ev
    case Prepared(batch, _) =>
      |t.docs| <= d < |Apply(e, t, ev).docs|
      || (0 <= d < |t.docs| && Named(e, t.docs[d])
          && HashAfter(t.docs[d], KeyAll(e, batch), |batch|) != t.docs[d].contentHash)
    case Restarted(x, _) => d == x && Named(e, t.docs[d])
    case Finished(x, _, _, _, _) => d == x && Honest(e, t.docs[d])
    case _ => false
  }

  lemma PreparedKeepsRow(e: Tools, t: Tables, batch: seq<ConnectorDocument>, now: int, d: int)
    requires Sound(e) && Tidy(t) && Possible(e, t, Prepared(batch, now))
    requires (0 <= d < |t.docs| && RowOk(e, t, d)) || Enters(e, t, Prepared(batch, now), d)
    ensures 0 <= d < |Apply(e, t, Prepared(batch, now)).docs| && RowOk(e, Apply(e, t, Prepared(batch, now)), d)
  {
    var keys := KeyAll(e, batch);
    var p := Prepare(t.docs, keys, |keys|, now).value;
    var t' := t.(docs := p.docs);
    PreparedTable(t.docs, keys, |keys|, now);
    if d < |t.docs| {
      assert p.docs[d] == RowAfter(t.docs[d], keys, |keys|, now);
      OldRowTurnsHonest(e, t.docs[d], batch, now, p.docs[d]);
      ReadyKeepsText(t.docs[d], keys, now);
      if p.docs[d].status == Ready {
        HoldsDependsOnRows(e, t, t', d, Outline(e, p.docs[d].source.value));
      }
    } else {
      InsertedRowIsOk(e, t, batch, now, p.docs[d]);
    }
  }

  lemma InsertedRowIsOk(e: Tools, t: Tables, batch: seq<ConnectorDocument>, now: int, row: Row)
    requires Sound(e) && Inserted(t.docs, KeyAll(e, batch), |batch|, now, row)
    ensures Honest(e, row) && row.status == Pending
  {
    var k :| InsertedBy(t.docs, KeyAll(e, batch), |batch|, now, row, k);
    KeyAllAt(e, batch, k);
    NewIsHonest(e, batch[k], now);
  }

  // ---------- index ----------

  lemma SameHashesKeepUnique(docs: seq<Row>, d: int, row: Row)
    requires Unique(docs) && 0 <= d < |docs|
    requires row.uniqueHash == docs[d].uniqueHash && row.contentHash == docs[d].contentHash
    ensures Unique(docs[d := row])
  {
    var next := docs[d := row];
    forall a, b | 0 <= a < b < |next|
      ensures !Clash(next[a], next[b])
    {
      assert !Clash(docs[a], docs[b]);
    }
  }

  /** The row's content hash identifies the text that was indexed. */
  lemma HashPinsText(e: Tools, row: Row, doc: ConnectorDocument)
    requires Sound(e) && Honest(e, row) && row.contentHash == ContentHash(e, doc)
    ensures row.source == Some(doc.markdown)
  {
    ContentKeyInjective(row.space, row.source.value, doc.space, doc.markdown);
  }

  lemma HonestStays(e: Tools, row: Row, row': Row)
    requires Honest(e, row) && row'.source == row.source && row'.contentHash == row.contentHash
    requires row'.uniqueHash == row.uniqueHash && row'.space == row.space && row'.kind == row.kind
    ensures Honest(e, row')
  {
    NamedStays(e, row, row');
  }

  /** A row another document's change of rows leaves alone. */
  lemma OtherRowStaysOk(e: Tools, t: Tables, t': Tables, d: int)
    requires Sound(e) && 0 <= d < |t.docs| == |t'.docs| && RowOk(e, t, d) && t'.docs[d] == t.docs[d]
    requires SectionsOf(t'.sections, d) == SectionsOf(t.sections, d) && ChunksOf(t'.chunks, d) == ChunksOf(t.chunks, d)
    ensures RowOk(e, t', d)
  {
    if t.docs[d].status == Ready {
      HoldsDependsOnRows(e, t, t', d, Outline(e, t.docs[d].source.value));
    }
  }

  /** The commits of `index` that only touch the document row, leaving it in a state other than ready. */
  lemma StatusKeepsRow(e: Tools, t: Tables, x: int, row: Row, d: int)
    requires Sound(e) && 0 <= x < |t.docs| && 0 <= d < |t.docs| && row.status != Ready
    requires if d == x then Honest(e, row) else RowOk(e, t, d)
    ensures RowOk(e, t.(docs := t.docs[x := row]), d)
  {
    if d != x {
      OtherRowStaysOk(e, t, t.(docs := t.docs[x := row]), d);
    }
  }

  /** Re-indexing makes a named row honest. */
  lemma RestartedIsHonest(e: Tools, row: Row, doc: ConnectorDocument)
    requires Named(e, row) && Rebuilt(row, doc)
    ensures Honest(e, row.(contentHash := ContentHash(e, doc), status := Processing))
  {
    NamedStays(e, row, row.(contentHash := ContentHash(e, doc), status := Processing));
  }

  lemma FinishedKeepsRow(e: Tools, t: Tables, ev: Event, d: int)
    requires Sound(e) && LinksStayInside(t) && ev.Finished? && Possible(e, t, ev) && 0 <= d < |t.docs|
    requires if d == ev.d then Honest(e, t.docs[d]) else RowOk(e, t, d)
    ensures RowOk(e, Apply(e, t, ev), d)
  {
    var o := Outline(e, ev.doc.markdown);
    var t' := Apply(e, t, ev);
    if d == ev.d {
      ReplacedHoldsOutline(e, t, d, o, ev.base);
      assert HoldsFrom(e, t', d, o, ev.base);
      HonestStays(e, t.docs[d], FinishedRow(e, t.docs[d], ev.content, ev.now));
      HashPinsText(e, t.docs[d], ev.doc);
    } else {
      ReplacedLeavesOthers(e, t, ev.d, o, ev.base, d);
      OtherRowStaysOk(e, t, t', d);
    }
  }

  // ---------- every run ----------

  lemma EventKeepsTidy(e: Tools, t: Tables, ev: Event)
    requires Sound(e) && Tidy(t) && Possible(e, t, ev)
    ensures Tidy(Apply(e, t, ev)) && |t.docs| <= |Apply(e, t, ev).docs|
  {
    match ev
    case Prepared(batch, now) => PreparedTable(t.docs, KeyAll(e, batch), |KeyAll(e, batch)|, now);
    case Started(d) => SameHashesKeepUnique(t.docs, d, t.docs[d].(status := Processing));
    case Restarted(_, _) =>
    case Finished(d, doc, content, base, now) =>
      SameHashesKeepUnique(t.docs, d, FinishedRow(e, t.docs[d], content, now));
      ReplacedKeepsLinks(e, t, d, Outline(e, doc.markdown), base);
    case GaveUp(d, reason, now) => SameHashesKeepUnique(t.docs, d, FailedRow(t.docs[d], reason, now));
  }

  lemma EventKeepsRow(e: Tools, t: Tables, ev: Event, d: int)
    requires Sound(e) && Tidy(t) && Possible(e, t, ev)
    requires (0 <= d < |t.docs| && RowOk(e, t, d)) || Enters(e, t, ev, d)
    ensures 0 <= d < |Apply(e, t, ev).docs| && RowOk(e, Apply(e, t, ev), d)
  {
    match ev
    case Prepared(batch, now) => PreparedKeepsRow(e, t, batch, now, d);
    case Started(x) =>
      HonestStays(e, t.docs[d], t.docs[d].(status := Processing));
      StatusKeepsRow(e, t, x, t.docs[x].(status := Processing), d);
    case Restarted(x, doc) =>
      if d == x {
        RestartedIsHonest(e, t.docs[x], doc);
      }
      StatusKeepsRow(e, t, x, RestartedDocs(e, t, x, doc)[x], d);
    case Finished(_, _, _, _, _) => FinishedKeepsRow(e, t, ev, d);
    case GaveUp(x, reason, now) =>
      HonestStays(e, t.docs[d], FailedRow(t.docs[d], reason, now));
      StatusKeepsRow(e, t, x, FailedRow(t.docs[x], reason, now), d);
  }

  /** Some event of the run brought row `d` into the pipeline's care. */
  ghost predicate EntersDuring(e: Tools, t: Tables, evs: seq<Event>, d: int)
    requires Sound(e) && IsRun(e, t, evs)
    decreases |evs|
  {
    evs != [] && (Enters(e, t, evs[0], d) || EntersDuring(e, Apply(e, t, evs[0]), evs[1..], d))
  }

  /**
    Over every run, from any table with unique hashes whose links stay inside documents: it stays so,
    and every row that was right at the start or entered on the way is right at the end, which means
    that its hashes are those of its identity and text, and that when it is ready it has exactly the
    sections and chunks of that text.
   */
  lemma {:induction false} EveryRunKeepsRows(e: Tools, t: Tables, evs: seq<Event>, d: int)
    requires Sound(e) && Tidy(t) && IsRun(e, t, evs)
    ensures Tidy(Replay(e, t, evs)) && |t.docs| <= |Replay(e, t, evs).docs|
    ensures (0 <= d < |t.docs| && RowOk(e, t, d)) || EntersDuring(e, t, evs, d) ==>
      0 <= d < |Replay(e, t, evs).docs| && RowOk(e, Replay(e, t, evs), d)
    decreases |evs|
  {
    if evs != [] {
      EventKeepsTidy(e, t, evs[0]);
      if (0 <= d < |t.docs| && RowOk(e, t, d)) || Enters(e, t, evs[0], d) {
        EventKeepsRow(e, t, evs[0], d);
      }
      EveryRunKeepsRows(e, Apply(e, t, evs[0]), evs[1..], d);
    }
  }

  /** No row that was right is lost or spoiled. */
  ghost predicate KeepsRows(e: Tools, t: Tables, t': Tables)
    requires Sound(e)
  {
    Tidy(t') && |t.docs| <= |t'.docs| && forall d :: 0 <= d < |t.docs| && RowOk(e, t, d) ==> RowOk(e, t', d)
  }

  lemma RunKeepsRows(e: Tools, t: Tables, evs: seq<Event>)
    requires Sound(e) && Tidy(t) && IsRun(e, t, evs)
    ensures KeepsRows(e, t, Replay(e, t, evs))
  {
    EveryRunKeepsRows(e, t, evs, 0);
    forall d | 0 <= d < |t.docs| && RowOk(e, t, d)
      ensures RowOk(e, Replay(e, t, evs), d)
    {
      EveryRunKeepsRows(e, t, evs, d);
    }
  }

  /** An uploaded file's placeholder row, whose content hash is its identifier hash, enters with its batch. */
  lemma PlaceholderEnters(e: Tools, t: Tables, batch: seq<ConnectorDocument>, now: int, d: int)
    requires Sound(e) && Possible(e, t, Prepared(batch, now)) && 0 <= d < |t.docs|
    requires Named(e, t.docs[d]) && t.docs[d].uniqueHash == Some(t.docs[d].contentHash)
    requires FirstFor(KeyAll(e, batch), |batch|, t.docs[d].contentHash).Some?
    ensures Enters(e, t, Prepared(batch, now), d)
  {
    var k := FirstFor(KeyAll(e, batch), |batch|, t.docs[d].contentHash).value;
    FirstForHits(KeyAll(e, batch), |batch|, t.docs[d].contentHash);
    KeyAllAt(e, batch, k);
    PlaceholderIsRewritten(e, t.docs[d], batch[k]);
  }

  // ---------- one call of `index` ----------

  /** The text stored as the document's content: the summary, the fallback, or the source. */
  function ChosenContent(doc: ConnectorDocument, llm: Option<string>): string {
    if doc.shouldSummarize && llm.Some? then llm.value
    else if doc.shouldSummarize && doc.fallbackSummary.Some? && doc.fallbackSummary.value != ""
    then doc.fallbackSummary.value
    else doc.markdown
  }

  predicate IsStart(ev: Event, d: int, doc: ConnectorDocument) {
    ev == Started(d) || ev == Restarted(d, doc)
  }

  /** Everything one call may have committed; all cases but the last are failures. */
  ghost predicate IndexEvents(evs: seq<Event>, d: int, doc: ConnectorDocument, llm: Option<string>, base: int,
                              now: int) {
    || evs == []
    || (|evs| == 1 && IsStart(evs[0], d, doc))
    || (|evs| == 1 && evs[0].GaveUp? && evs[0].d == d && evs[0].now == now)
    || (|evs| == 2 && IsStart(evs[0], d, doc) && evs[1].GaveUp? && evs[1].d == d
        && evs[1].now == now)
    || (|evs| == 2 && IsStart(evs[0], d, doc) && evs[1] == Finished(d, doc, ChosenContent(doc, llm), base, now))
  }

  predicate Succeeded(evs: seq<Event>) {
    |evs| == 2 && evs[1].Finished?
  }

  /** Only the status and timestamp of row `d` may differ, and its content hash when the caller set it. */
  ghost predicate OnlyStatusMoved(e: Tools, t: Tables, t': Tables, d: int, doc: ConnectorDocument)
    requires 0 <= d < |t.docs|
  {
    && |t'.docs| == |t.docs| && t'.sections == t.sections && t'.chunks == t.chunks
    && t'.docs == t.docs[d := t.docs[d].(contentHash := t'.docs[d].contentHash, status := t'.docs[d].status,
                                         updatedAt := t'.docs[d].updatedAt)]
    && (t'.docs[d].contentHash == t.docs[d].contentHash || t'.docs[d].contentHash == ContentHash(e, doc))
  }

  lemma StatusEventMovesStatus(e: Tools, t: Tables, ev: Event, doc: ConnectorDocument)
    requires Sound(e) && Possible(e, t, ev) && (ev.Started? || ev.GaveUp? || (ev.Restarted? && ev.doc == doc))
    ensures 0 <= ev.d < |t.docs| && OnlyStatusMoved(e, t, Apply(e, t, ev), ev.d, doc)
  {
  }

  /** On failure, the call leaves content, embedding, sections and chunks of every document as they were. */
  lemma FailedIndexKeepsEverything(e: Tools, t: Tables, evs: seq<Event>, d: int, doc: ConnectorDocument,
                                   llm: Option<string>, base: int, now: int)
    requires Sound(e) && 0 <= d < |t.docs| && IsRun(e, t, evs)
    requires IndexEvents(evs, d, doc, llm, base, now) && !Succeeded(evs)
    ensures OnlyStatusMoved(e, t, Replay(e, t, evs), d, doc)
  {
    if |evs| == 1 {
      StatusEventMovesStatus(e, t, evs[0], doc);
      RunOfOne(e, t, evs[0]);
      assert evs == [evs[0]];
    } else if |evs| == 2 {
      var t1 := Apply(e, t, evs[0]);
      StatusEventMovesStatus(e, t, evs[0], doc);
      assert evs[1..][0] == evs[1];
      StatusEventMovesStatus(e, t1, evs[1], doc);
      RunOfTwo(e, t, evs[0], evs[1]);
      assert evs == [evs[0], evs[1]];
    }
  }

  /** What a successful call leaves of a row: indexed, with the document's content hash. */
  function IndexedRow(e: Tools, row: Row, doc: ConnectorDocument, content: string, now: int): Row {
    FinishedRow(e, row.(contentHash := ContentHash(e, doc)), content, now)
  }

  lemma FinishedReplacesOne(e: Tools, t: Tables, last: Event, x: int)
    requires Sound(e) && LinksStayInside(t) && 0 <= x < |t.docs| && last.Finished? && Possible(e, t, last)
    ensures var t' := Apply(e, t, last);
      && |t'.docs| == |t.docs|
      && if x == last.d then
           Holds(e, t', x, Outline(e, last.doc.markdown))
           && t'.docs[x] == FinishedRow(e, t.docs[x], last.content, last.now)
         else
           t'.docs[x] == t.docs[x] && SectionsOf(t'.sections, x) == SectionsOf(t.sections, x)
           && ChunksOf(t'.chunks, x) == ChunksOf(t.chunks, x)
  {
    if x == last.d {
      ReplacedHoldsOutline(e, t, x, Outline(e, last.doc.markdown), last.base);
      assert HoldsFrom(e, Apply(e, t, last), x, Outline(e, last.doc.markdown), last.base);
    } else {
      ReplacedLeavesOthers(e, t, last.d, Outline(e, last.doc.markdown), last.base, x);
    }
  }

  lemma RunIsTwo(e: Tools, t: Tables, evs: seq<Event>)
    requires Sound(e) && IsRun(e, t, evs) && |evs| == 2
    ensures Possible(e, t, evs[0]) && Possible(e, Apply(e, t, evs[0]), evs[1])
    ensures Replay(e, t, evs) == Apply(e, Apply(e, t, evs[0]), evs[1])
  {
    assert evs == [evs[0], evs[1]];
    assert evs[1..] == [evs[1]] && evs[1..][0] == evs[1];
    assert IsRun(e, Apply(e, t, evs[0]), evs[1..]);
    RunOfTwo(e, t, evs[0], evs[1]);
  }

  /** On success, document `d` has exactly the new parse, and every other document is untouched. */
  lemma SucceededIndexReplacesOne(e: Tools, t: Tables, evs: seq<Event>, d: int, doc: ConnectorDocument,
                                  llm: Option<string>, base: int, now: int, x: int)
    requires Sound(e) && LinksStayInside(t) && 0 <= x < |t.docs| && IsRun(e, t, evs)
    requires IndexEvents(evs, d, doc, llm, base, now) && Succeeded(evs)
    ensures var t' := Replay(e, t, evs);
      && |t'.docs| == |t.docs|
      && if x == d then
           Holds(e, t', d, Outline(e, doc.markdown))
           && t'.docs[d] == IndexedRow(e, t.docs[d], doc, ChosenContent(doc, llm), now)
         else
           t'.docs[x] == t.docs[x] && SectionsOf(t'.sections, x) == SectionsOf(t.sections, x)
           && ChunksOf(t'.chunks, x) == ChunksOf(t.chunks, x)
  {
    RunIsTwo(e, t, evs);
    FinishedReplacesOne(e, Apply(e, t, evs[0]), evs[1], x);
  }

  /** The status that an event of `index` gives a row. */
  predicate StatusOf(ev: Event, status: Status) {
    match ev
    case Prepared(_, _) => true
    case GaveUp(_, reason, _) => status == Failed(if |reason| <= 500 then reason else reason[..500])
    case Finished(_, _, _, _, _) => status == Ready
    case _ => status == Processing
  }

  lemma EventSetsStatus(e: Tools, t: Tables, ev: Event, d: int)
    requires Sound(e) && Possible(e, t, ev) && !ev.Prepared? && ev.d == d
    ensures 0 <= d < |t.docs| == |Apply(e, t, ev).docs| && StatusOf(ev, Apply(e, t, ev).docs[d].status)
    ensures Apply(e, t, ev).docs[d].updatedAt == if ev.GaveUp? || ev.Finished? then ev.now else t.docs[d].updatedAt
  {
  }

  /** The row's status after a call is that of the outcome, or of how far it came; outcomes set the timestamp. */
  lemma StatusAfterIndex(e: Tools, t: Tables, evs: seq<Event>, d: int, doc: ConnectorDocument, llm: Option<string>,
                         base: int, now: int)
    requires Sound(e) && 0 <= d < |t.docs| && IsRun(e, t, evs) && IndexEvents(evs, d, doc, llm, base, now)
    ensures |Replay(e, t, evs).docs| == |t.docs|
    ensures if evs == [] then Replay(e, t, evs).docs[d].status == t.docs[d].status
            else StatusOf(evs[|evs| - 1], Replay(e, t, evs).docs[d].status)
    ensures Replay(e, t, evs).docs[d].updatedAt ==
      if evs != [] && (evs[|evs| - 1].GaveUp? || evs[|evs| - 1].Finished?) then now else t.docs[d].updatedAt
  {
    if |evs| == 1 {
      assert evs == [evs[0]];
      RunHead(e, t, evs);
      RunOfOne(e, t, evs[0]);
      EventSetsStatus(e, t, evs[0], d);
    } else if |evs| == 2 {
      RunIsTwo(e, t, evs);
      EventSetsStatus(e, t, evs[0], d);
      EventSetsStatus(e, Apply(e, t, evs[0]), evs[1], d);
    }
  }

  /** What a successful call stores as the content: the summary, else the fallback, else the text; and its embedding. */
  lemma ContentAfterIndex(e: Tools, t: Tables, evs: seq<Event>, d: int, doc: ConnectorDocument, llm: Option<string>,
                          base: int, now: int)
    requires Sound(e) && LinksStayInside(t) && 0 <= d < |t.docs| && IsRun(e, t, evs)
    requires IndexEvents(evs, d, doc, llm, base, now) && Succeeded(evs)
    ensures |Replay(e, t, evs).docs| == |t.docs|
    ensures var r := Replay(e, t, evs).docs[d];
      && (doc.shouldSummarize && llm.Some? ==> r.content == llm.value)
      && (doc.shouldSummarize && llm.None? && doc.fallbackSummary.Some? && doc.fallbackSummary.value != "" ==>
            r.content == doc.fallbackSummary.value)
      && (!doc.shouldSummarize || (llm.None? && (doc.fallbackSummary.None? || doc.fallbackSummary.value == "")) ==>
            r.content == doc.markdown)
      && r.embedding == Some(e.Embed(r.content)) && r.contentHash == ContentHash(e, doc) && r.updatedAt == now
      && r.title == t.docs[d].title && r.source == t.docs[d].source && r.metadata == t.docs[d].metadata
      && r.uniqueHash == t.docs[d].uniqueHash && r.kind == t.docs[d].kind && r.space == t.docs[d].space
  {
    SucceededIndexReplacesOne(e, t, evs, d, doc, llm, base, now, d);
  }

  /** A committed prepare is a run of one event. */
  lemma CommittedPrepareIsARun(e: Tools, t: Tables, batch: seq<ConnectorDocument>, now: int)
    requires Sound(e) && Prepare(t.docs, KeyAll(e, batch), |KeyAll(e, batch)|, now).Some?
    ensures IsRun(e, t, [Prepared(batch, now)])
    ensures Replay(e, t, [Prepared(batch, now)])
         == t.(docs := Prepare(t.docs, KeyAll(e, batch), |KeyAll(e, batch)|, now).value.docs)
  {
    RunOfOne(e, t, Prepared(batch, now));
  }

  /** Each document in turn started and finished. */
  predicate IndexesAll(evs: seq<Event>, ids: seq<int>) {
    if ids == [] then evs == []
    else |evs| >= 2 && evs[0] == Started(ids[0]) && evs[1].Finished? && evs[1].d == ids[0]
         && IndexesAll(evs[2..], ids[1..])
  }

  lemma RunHead(e: Tools, t: Tables, evs: seq<Event>)
    requires Sound(e) && IsRun(e, t, evs) && evs != []
    ensures Possible(e, t, evs[0]) && IsRun(e, Apply(e, t, evs[0]), evs[1..])
    ensures Replay(e, t, evs) == Replay(e, Apply(e, t, evs[0]), evs[1..])
  {
  }

  lemma StartedThenFinished(e: Tools, t: Tables, d: int, last: Event)
    requires Sound(e) && Possible(e, t, Started(d)) && Possible(e, Apply(e, t, Started(d)), last)
    requires last.Finished? && last.d == d
    ensures Indexed(t.docs, [d], Apply(e, Apply(e, t, Started(d)), last).docs)
  {
  }

  /** One document started and finished: its row is ready and otherwise the same, the rest untouched. */
  lemma IndexingOne(e: Tools, t: Tables, evs: seq<Event>, d: int) returns (t2: Tables)
    requires Sound(e) && IsRun(e, t, evs)
    requires |evs| >= 2 && evs[0] == Started(d) && evs[1].Finished? && evs[1].d == d
    ensures IsRun(e, t2, evs[2..]) && Replay(e, t, evs) == Replay(e, t2, evs[2..])
    ensures Indexed(t.docs, [d], t2.docs)
  {
    RunHead(e, t, evs);
    RunHead(e, Apply(e, t, evs[0]), evs[1..]);
    assert evs[1..][0] == evs[1] && evs[1..][1..] == evs[2..];
    StartedThenFinished(e, t, d, evs[1]);
    t2 := Apply(e, Apply(e, t, evs[0]), evs[1]);
  }

  lemma IndexedChains(docs: seq<Row>, ids: seq<int>, docs1: seq<Row>, docs2: seq<Row>)
    requires ids != [] && Indexed(docs, [ids[0]], docs1) && Indexed(docs1, ids[1..], docs2)
    ensures Indexed(docs, ids, docs2)
  {
    assert ids == [ids[0]] + ids[1..];
    forall j | 0 <= j < |docs|
      ensures if j in ids then SameIdentity(docs[j], docs2[j]) && docs2[j].status == Ready else docs2[j] == docs[j]
    {
      assert j in ids <==> j in [ids[0]] || j in ids[1..];
    }
  }

  /** Indexing every returned document is what convergence assumes of the table between two prepares. */
  lemma {:induction false} IndexingAllIndexes(e: Tools, t: Tables, ids: seq<int>, evs: seq<Event>)
    requires Sound(e) && IsRun(e, t, evs) && IndexesAll(evs, ids)
    ensures Indexed(t.docs, ids, Replay(e, t, evs).docs)
    decreases |ids|
  {
    if ids != [] {
      var t2 := IndexingOne(e, t, evs, ids[0]);
      IndexingAllIndexes(e, t2, ids[1..], evs[2..]);
      IndexedChains(t.docs, ids, t2.docs, Replay(e, t2, evs[2..]).docs);
    }
  }

  /**
    End to end: after a committed prepare whose documents are all indexed, the row of every first document
    is ready, stores that document's text, and has exactly its sections and chunks. The row may be new,
    right before, or a placeholder or other content under the document's name.
   */
  lemma PreparedThenIndexed(e: Tools, t: Tables, batch: seq<ConnectorDocument>, now: int, evs: seq<Event>, k: nat,
                            d: int)
    requires Sound(e) && Tidy(t) && Possible(e, t, Prepared(batch, now)) && k < |batch|
    requires var t1 := Apply(e, t, Prepared(batch, now));
      && IsRun(e, t1, evs) && IndexesAll(evs, Prepare(t.docs, KeyAll(e, batch), |batch|, now).value.ids)
      && FindUnique(t1.docs, UniqueHash(e, batch[k])) == Some(d)
    requires First(KeyAll(e, batch), k)
    requires d < |t.docs| ==>
      RowOk(e, t, d) || (Named(e, t.docs[d]) && t.docs[d].contentHash != ContentHash(e, batch[k]))
    ensures var t2 := Replay(e, Apply(e, t, Prepared(batch, now)), evs);
      && 0 <= d < |t2.docs| && t2.docs[d].status == Ready && t2.docs[d].source == Some(batch[k].markdown)
      && Holds(e, t2, d, Outline(e, batch[k].markdown))
  {
    var keys, ev := KeyAll(e, batch), Prepared(batch, now);
    var t1 := Apply(e, t, ev);
    var t2 := Replay(e, t1, evs);
    KeyAllAt(e, batch, k);
    FirstStays(keys, k, |batch|);
    RowOfFirst(e, t, batch, now, k, d);
    EventKeepsTidy(e, t, ev);
    EventKeepsRow(e, t, ev, d);
    EveryRunKeepsRows(e, t1, evs, d);
    var ids := Prepare(t.docs, keys, |batch|, now).value.ids;
    IndexingAllIndexes(e, t1, ids, evs);
    PrepareThenIndexSettles(t.docs, keys, now, t2.docs);
    assert SettledRow(t2.docs[d], keys);
    assert t2.docs[d].uniqueHash == t1.docs[d].uniqueHash;
    HashPinsText(e, t2.docs[d], batch[k]);
  }

  /** The row of a first document is right already, or enters with the batch. */
  lemma RowOfFirst(e: Tools, t: Tables, batch: seq<ConnectorDocument>, now: int, k: nat, d: int)
    requires Sound(e) && Tidy(t) && Possible(e, t, Prepared(batch, now)) && k < |batch|
    requires FirstFor(KeyAll(e, batch), |batch|, UniqueHash(e, batch[k])) == Some(k)
    requires FindUnique(Apply(e, t, Prepared(batch, now)).docs, UniqueHash(e, batch[k])) == Some(d)
    requires d < |t.docs| ==>
      RowOk(e, t, d) || (Named(e, t.docs[d]) && t.docs[d].contentHash != ContentHash(e, batch[k]))
    ensures (0 <= d < |t.docs| && RowOk(e, t, d)) || Enters(e, t, Prepared(batch, now), d)
  {
    var keys := KeyAll(e, batch);
    KeyAllAt(e, batch, k);
    PreparedTable(t.docs, keys, |keys|, now);
    if d < |t.docs| {
      OldKeepsIdentity(t.docs[d], keys, |keys|, now);
      assert t.docs[d].uniqueHash == Some(UniqueHash(e, batch[k]));
    }
  }
}
