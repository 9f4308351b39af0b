/** Preparing and indexing the same batch twice settles it; a third time changes nothing. */
module PrepareConvergence {
  import opened Common
  import opened DocumentChunker
  import opened Tables
  import opened Preparing
  import opened PrepareTheorems

  /** What `index` leaves of a row: everything but content, embedding, status and timestamp. */
  predicate SameIdentity(a: Row, b: Row) {
    b == a.(content := b.content, embedding := b.embedding, status := b.status, updatedAt := b.updatedAt)
  }

  /** The table after every returned document has been indexed to ready. */
  ghost predicate Indexed(docs: seq<Row>, ids: seq<int>, docs': seq<Row>) {
    && |docs'| == |docs|
    && (forall j :: 0 <= j < |docs| && j in ids ==> SameIdentity(docs[j], docs'[j]) && docs'[j].status == Ready)
    && (forall j :: 0 <= j < |docs| && j !in ids ==> docs'[j] == docs[j])
  }

  /** A row of the batch that is as its document wants it. */
  predicate SettledRow(row: Row, batch: seq<Keyed>) {
    row.uniqueHash.Some? && FirstFor(batch, |batch|, row.uniqueHash.value).Some? ==>
      var c := batch[FirstFor(batch, |batch|, row.uniqueHash.value).value];
      row.contentHash == c.content && row.title == c.doc.title && row.status == Ready
  }

  ghost predicate Settled(docs: seq<Row>, batch: seq<Keyed>) {
    forall j :: 0 <= j < |docs| ==> SettledRow(docs[j], batch)
  }

  /** The document has a row, or its content is already there. */
  predicate Covers(docs: seq<Row>, c: Keyed) {
    FindUnique(docs, c.unique).Some? || HasContent(docs, c.content)
  }

  lemma IndexedKeepsUnique(docs: seq<Row>, ids: seq<int>, docs': seq<Row>)
    requires Unique(docs) && Indexed(docs, ids, docs')
    ensures Unique(docs')
  {
    forall a, b | 0 <= a < b < |docs'|
      ensures !Clash(docs'[a], docs'[b])
    {
      assert !Clash(docs[a], docs[b]);
      assert SameIdentity(docs[a], docs'[a]) && SameIdentity(docs[b], docs'[b]);
    }
  }

  lemma OldRowSettles(row: Row, batch: seq<Keyed>, now: int, row': Row)
    requires var r := RowAfter(row, batch, |batch|, now);
      if Returned(row, batch, |batch|) then SameIdentity(r, row') && row'.status == Ready else row' == r
    ensures SettledRow(row', batch)
  {
  }

  lemma NewRowSettles(docs: seq<Row>, batch: seq<Keyed>, now: int, row: Row, row': Row)
    requires Inserted(docs, batch, |batch|, now, row)
    requires SameIdentity(row, row') && row'.status == Ready
    ensures SettledRow(row', batch)
  {
    var k :| InsertedBy(docs, batch, |batch|, now, row, k);
  }

  /** One committed prepare whose documents are all indexed leaves every row of the batch settled. */
  lemma PrepareThenIndexSettles(docs: seq<Row>, batch: seq<Keyed>, now: int, docs': seq<Row>)
    requires Unique(docs) && Prepare(docs, batch, |batch|, now).Some?
    requires var p := Prepare(docs, batch, |batch|, now).value; Indexed(p.docs, p.ids, docs')
    ensures Unique(docs') && Settled(docs', batch)
  {
    var p := Prepare(docs, batch, |batch|, now).value;
    PreparedTable(docs, batch, |batch|, now);
    IndexedKeepsUnique(p.docs, p.ids, docs');
    forall j | 0 <= j < |docs'|
      ensures SettledRow(docs'[j], batch)
    {
      if j < |docs| {
        assert p.docs[j] == RowAfter(docs[j], batch, |batch|, now);
        OldRowSettles(docs[j], batch, now, docs'[j]);
      } else {
        NewRowSettles(docs, batch, now, p.docs[j], docs'[j]);
      }
    }
  }

  lemma SettledRowIsUntouched(docs: seq<Row>, batch: seq<Keyed>, n: nat, i: int, now: int)
    requires 0 < n <= |batch| && Settled(docs, batch) && 0 <= i < |docs|
    requires docs[i].uniqueHash == Some(batch[n - 1].unique)
    requires FirstFor(batch, |batch|, batch[n - 1].unique) == Some(n - 1)
    ensures Touched(docs[i], batch[n - 1], now) == docs[i] && !NeedsIndexing(docs[i], batch[n - 1])
  {
    assert SettledRow(docs[i], batch);
  }

  /** In a settled table a turn never collides: it does nothing, or inserts an uncovered document. */
  ghost predicate QuietTurn(p: Plan, c: Keyed, q: Plan, now: int) {
    if !c.doc.encodable || c.unique in p.seen || Covers(p.docs, c) then q.docs == p.docs && q.ids == p.ids
    else q.docs == p.docs + [NewRow(c, now)]
  }

  lemma SettledTurn(docs: seq<Row>, batch: seq<Keyed>, n: nat, now: int, p: Plan)
    requires 0 < n <= |batch| && Unique(docs) && Settled(docs, batch)
    requires Prepare(docs, batch, n - 1, now) == Some(p)
    ensures QuietTurn(p, batch[n - 1], Turn(p, batch[n - 1], now), now)
  {
    var c := batch[n - 1];
    if c.doc.encodable && c.unique !in p.seen {
      PreparedTable(docs, batch, n - 1, now);
      FoundRowIsOld(docs, batch, n - 1, now, p, c.unique);
      FirstForStays(batch, n, |batch|, c.unique);
      match FindUnique(p.docs, c.unique)
      case Some(i) => SettledRowIsUntouched(docs, batch, n, i, now);
      case None =>
    }
  }

  lemma QuietTurnKeepsUnique(p: Plan, c: Keyed, now: int)
    requires Unique(p.docs) && QuietTurn(p, c, Turn(p, c, now), now)
    ensures Unique(Turn(p, c, now).docs)
  {
    if c.doc.encodable && c.unique !in p.seen && !Covers(p.docs, c) {
      InsertKeepsUnique(p.docs, c, now);
    }
  }

  /** What `more` adds to `docs` after it covers at least as much. */
  lemma CoversMore(docs: seq<Row>, more: seq<Row>, c: Keyed)
    requires Covers(docs, c) && docs <= more
    ensures Covers(more, c)
  {
    match FindUnique(docs, c.unique)
    case Some(i) => assert more[i].uniqueHash == Some(c.unique);
    case None =>
      var i :| 0 <= i < |docs| && docs[i].contentHash == c.content;
      assert more[i].contentHash == c.content;
  }

  /** Every first document among the first `n` is covered. */
  ghost predicate CoversFirsts(docs: seq<Row>, batch: seq<Keyed>, n: nat)
    requires n <= |batch|
  {
    forall k :: 0 <= k < n && FirstFor(batch, |batch|, batch[k].unique) == Some(k) ==> Covers(docs, batch[k])
  }

  lemma {:induction false} QuietTurnCovers(docs: seq<Row>, batch: seq<Keyed>, n: nat, now: int, p: Plan, q: Plan)
    requires 0 < n <= |batch| && Unique(docs) && Prepare(docs, batch, n - 1, now) == Some(p)
    requires CoversFirsts(p.docs, batch, n - 1) && QuietTurn(p, batch[n - 1], q, now)
    ensures p.docs <= q.docs && CoversFirsts(q.docs, batch, n)
  {
    forall k | 0 <= k < n && FirstFor(batch, |batch|, batch[k].unique) == Some(k)
      ensures Covers(q.docs, batch[k])
    {
      if k < n - 1 {
        CoversMore(p.docs, q.docs, batch[k]);
      } else {
        FirstIsUnseen(docs, batch, n, now, p);
        if !Covers(p.docs, batch[k]) {
          assert q.docs[|p.docs|].contentHash == batch[k].content;
        }
      }
    }
  }

  /** From a settled table the batch cannot be lost, only adds rows, and ends up covered. */
  lemma {:induction false} SettledPrepares(docs: seq<Row>, batch: seq<Keyed>, n: nat, now: int)
    requires n <= |batch| && Unique(docs) && Settled(docs, batch)
    ensures Prepare(docs, batch, n, now).Some?
    ensures docs <= Prepare(docs, batch, n, now).value.docs
    ensures CoversFirsts(Prepare(docs, batch, n, now).value.docs, batch, n)
  {
    if n > 0 {
      SettledPrepares(docs, batch, n - 1, now);
      var p := Prepare(docs, batch, n - 1, now).value;
      PreparedIsUnique(docs, batch, n - 1, now);
      SettledTurn(docs, batch, n, now, p);
      QuietTurnKeepsUnique(p, batch[n - 1], now);
      QuietTurnCovers(docs, batch, n, now, p, Turn(p, batch[n - 1], now));
    }
  }

  /** The first document with an identifier has not been seen at its turn. */
  lemma FirstIsUnseen(docs: seq<Row>, batch: seq<Keyed>, n: nat, now: int, p: Plan)
    requires 0 < n <= |batch| && Unique(docs) && Prepare(docs, batch, n - 1, now) == Some(p)
    requires FirstFor(batch, |batch|, batch[n - 1].unique) == Some(n - 1)
    ensures batch[n - 1].doc.encodable && batch[n - 1].unique !in p.seen
  {
    PreparedTable(docs, batch, n - 1, now);
    FirstForMeans(batch, |batch|, batch[n - 1].unique, n - 1);
    if FirstFor(batch, n - 1, batch[n - 1].unique).Some? {
      FirstForStays(batch, n - 1, |batch|, batch[n - 1].unique);
    }
  }

  /** From a settled and covered table nothing happens at all. */
  lemma {:induction false} CoveredPrepareIsIdle(docs: seq<Row>, batch: seq<Keyed>, n: nat, now: int)
    requires n <= |batch| && Unique(docs) && Settled(docs, batch)
    requires CoversFirsts(docs, batch, |batch|)
    ensures Prepare(docs, batch, n, now).Some?
    ensures Prepare(docs, batch, n, now).value.docs == docs && Prepare(docs, batch, n, now).value.ids == []
  {
    if n > 0 {
      CoveredPrepareIsIdle(docs, batch, n - 1, now);
      var p, c := Prepare(docs, batch, n - 1, now).value, batch[n - 1];
      SettledTurn(docs, batch, n, now, p);
      QuietTurnKeepsUnique(p, c, now);
      if c.doc.encodable && c.unique !in p.seen {
        UnseenIsFirst(docs, batch, n, now, p);
      }
    }
  }

  lemma UnseenIsFirst(docs: seq<Row>, batch: seq<Keyed>, n: nat, now: int, p: Plan)
    requires 0 < n <= |batch| && Unique(docs) && Prepare(docs, batch, n - 1, now) == Some(p)
    requires batch[n - 1].doc.encodable && batch[n - 1].unique !in p.seen
    ensures FirstFor(batch, |batch|, batch[n - 1].unique) == Some(n - 1)
  {
    PreparedTable(docs, batch, n - 1, now);
    FirstForStays(batch, n, |batch|, batch[n - 1].unique);
  }

  lemma IndexedKeepsCover(docs: seq<Row>, ids: seq<int>, docs': seq<Row>, c: Keyed)
    requires Indexed(docs, ids, docs') && Covers(docs, c)
    ensures Covers(docs', c)
  {
    match FindUnique(docs, c.unique)
    case Some(i) => assert docs'[i].uniqueHash == Some(c.unique);
    case None =>
      var i :| 0 <= i < |docs| && docs[i].contentHash == c.content;
      assert docs'[i].contentHash == c.content;
  }

  /**
    Two runs converge: after a committed prepare whose documents are all indexed, the second prepare
    cannot be lost, and after indexing its documents too, a third returns nothing and changes nothing.
   */
  lemma TwoRunsConverge(docs0: seq<Row>, batch: seq<Keyed>, now1: int, docs1: seq<Row>, now2: int, docs2: seq<Row>,
                        now3: int)
    requires Unique(docs0)
    requires Prepare(docs0, batch, |batch|, now1).Some?
    requires var p := Prepare(docs0, batch, |batch|, now1).value; Indexed(p.docs, p.ids, docs1)
    requires Prepare(docs1, batch, |batch|, now2).Some? ==>
      var p := Prepare(docs1, batch, |batch|, now2).value; Indexed(p.docs, p.ids, docs2)
    ensures Prepare(docs1, batch, |batch|, now2).Some?
    ensures Prepare(docs2, batch, |batch|, now3).Some?
    ensures var p := Prepare(docs2, batch, |batch|, now3).value; p.docs == docs2 && p.ids == []
  {
    PrepareThenIndexSettles(docs0, batch, now1, docs1);
    SettledPrepares(docs1, batch, |batch|, now2);
    PrepareThenIndexSettles(docs1, batch, now2, docs2);
    var p := Prepare(docs1, batch, |batch|, now2).value;
    forall k | 0 <= k < |batch| && FirstFor(batch, |batch|, batch[k].unique) == Some(k)
      ensures Covers(docs2, batch[k])
    {
      IndexedKeepsCover(p.docs, p.ids, docs2, batch[k]);
    }
    CoveredPrepareIsIdle(docs2, batch, |batch|, now3);
  }

  /**
    One run is not enough: a new document `b`, skipped because row `a` has its content, is left out
    although the same batch rewrites `a`; the second prepare inserts it.
   */
  lemma OneRunIsNotEnough(row: Row, a: Keyed, b: Keyed, now1: int, docs1: seq<Row>, now2: int)
    requires a.doc.encodable && b.doc.encodable && a.unique != b.unique && a.content != b.content
    requires row.uniqueHash == Some(a.unique) && row.contentHash == b.content
    requires Indexed([Touched(row, a, now1)], [0], docs1)
    ensures Prepare([row], [b, a], 2, now1) == Some(Plan([Touched(row, a, now1)], [0], {a.unique, b.unique}))
    ensures Prepare(docs1, [b, a], 2, now2) == Some(Plan(docs1 + [NewRow(b, now2)], [1], {a.unique, b.unique}))
  {
    var p0 := Plan([row], [], {});
    assert row == [row][0] && HasContent([row], b.content);
    assert FindUnique([row], b.unique) == None;
    var p1 := Turn(p0, b, now1);
    assert p1 == Plan([row], [], {b.unique});
    assert Prepare([row], [b, a], 1, now1) == Some(p1);
    assert FindUnique([row], a.unique) == Some(0);
    assert [row][0 := Touched(row, a, now1)] == [Touched(row, a, now1)];
    assert Turn(p1, a, now1) == Plan([Touched(row, a, now1)], [0], {a.unique, b.unique});
    var q := Turn(Plan(docs1, [], {}), b, now2);
    assert q == Plan(docs1 + [NewRow(b, now2)], [1], {b.unique});
    InsertKeepsUnique(docs1, b, now2);
    assert Prepare(docs1, [b, a], 1, now2) == Some(q);
    assert q.docs[..1] == docs1;
    assert FindUnique(q.docs, a.unique) == Some(0);
    assert Turn(q, a, now2).docs == q.docs;
  }

  // ---------- when one run is enough ----------

  /** Row `a` has the content of document `k` at its turn, and a later document `f` rewrites it. */
  ghost predicate Displaced(docs: seq<Row>, batch: seq<Keyed>, k: int, a: int, f: int)
    requires 0 <= k < |batch|
  {
    && 0 <= a < |docs| && docs[a].contentHash == batch[k].content && docs[a].uniqueHash.Some?
    && FirstFor(batch, |batch|, docs[a].uniqueHash.value) == Some(f) && k < f
    && batch[f].content != batch[k].content
    && forall m :: f < m < |batch| && New(docs, batch, m) ==> batch[m].content != batch[k].content
  }

  /**
    New document `k` is left behind: it is skipped as a duplicate of a row that the same batch then
    rewrites, and nothing else ends up with its content.
   */
  ghost predicate Stranded(docs: seq<Row>, batch: seq<Keyed>, k: int) {
    && New(docs, batch, k) && !OldHas(docs, batch, |batch|, batch[k].content)
    && exists a, f :: Displaced(docs, batch, k, a, f)
  }

  lemma StrandedIsUncovered(docs: seq<Row>, batch: seq<Keyed>, k: int, a: int, f: int)
    requires Stranded(docs, batch, k) && Displaced(docs, batch, k, a, f)
    ensures !Inserts(docs, batch, k) && !InsertionHas(docs, batch, |batch|, batch[k].content)
  {
    var h := batch[k].content;
    FirstForMeans(batch, |batch|, docs[a].uniqueHash.value, f);
    forall m | 0 <= m < |batch| && Inserts(docs, batch, m)
      ensures batch[m].content != h
    {
      if m <= f {
        assert batch[f].unique == docs[a].uniqueHash.value;
        assert m != f;
        FirstForMeans(batch, m, docs[a].uniqueHash.value, f);
        assert HashAfter(docs[a], batch, m) == h by { RowUntouched(docs[a], batch, m, f); }
      }
    }
  }

  /** A row whose first document is `f` is as it was up to that turn. */
  lemma RowUntouched(row: Row, batch: seq<Keyed>, n: nat, f: int)
    requires n <= |batch| && row.uniqueHash.Some? && n <= f
    requires FirstFor(batch, |batch|, row.uniqueHash.value) == Some(f)
    ensures HashAfter(row, batch, n) == row.contentHash
  {
    if FirstFor(batch, n, row.uniqueHash.value).Some? {
      FirstForStays(batch, n, |batch|, row.uniqueHash.value);
    }
  }

  /** A row that loses its content after turn `n` still has its first content then, and is rewritten later. */
  lemma LosesContent(row: Row, batch: seq<Keyed>, n: nat)
    requires n <= |batch| && HashAfter(row, batch, n) != HashAfter(row, batch, |batch|)
    ensures row.uniqueHash.Some? && HashAfter(row, batch, n) == row.contentHash
    ensures match FirstFor(batch, |batch|, row.uniqueHash.value)
      case None => false
      case Some(f) => n <= f && batch[f].content != row.contentHash && batch[f].unique == row.uniqueHash.value
  {
    var u := row.uniqueHash.value;
    match FirstFor(batch, n, u)
    case Some(_) => FirstForStays(batch, n, |batch|, u);
    case None =>
      FirstForMeans(batch, n, u, 0);
      FirstForMeans(batch, |batch|, u, FirstFor(batch, |batch|, u).value);
  }

  /** If a new document after `f` has content `h`, which no row keeps, some document with it was inserted. */
  lemma LaterNewIsInserted(docs: seq<Row>, batch: seq<Keyed>, a: int, f: int, m: int)
    requires Unique(docs) && New(docs, batch, m) && 0 <= a < |docs| && docs[a].contentHash == batch[m].content
    requires docs[a].uniqueHash.Some? && FirstFor(batch, |batch|, docs[a].uniqueHash.value) == Some(f) && f < m
    requires batch[f].content != batch[m].content
    requires !OldHas(docs, batch, |batch|, batch[m].content)
    ensures InsertionHas(docs, batch, |batch|, batch[m].content)
  {
    var h := batch[m].content;
    forall j | 0 <= j < |docs| && HashAfter(docs[j], batch, m) == h
      ensures false
    {
      LosesContent(docs[j], batch, m);
      OneRowHasContent(docs, a, j);
    }
    assert !OldHas(docs, batch, m, h);
  }

  lemma OneRowHasContent(docs: seq<Row>, i: int, j: int)
    requires Unique(docs) && 0 <= i < |docs| && 0 <= j < |docs| && docs[i].contentHash == docs[j].contentHash
    ensures i == j
  {
  }

  /** A batch never takes a row away. */
  lemma KeepsItsRow(docs: seq<Row>, batch: seq<Keyed>, now: int, p: Plan, u: string)
    requires OldOk(docs, batch, |batch|, now, p) && FindUnique(docs, u).Some?
    ensures FindUnique(p.docs, u).Some?
  {
    var i := FindUnique(docs, u).value;
    OldKeepsIdentity(docs[i], batch, |batch|, now);
    assert p.docs[i].uniqueHash == Some(u);
  }

  /** What covers a first document after the batch, from the table and the batch. */
  lemma CoversExactly(docs: seq<Row>, batch: seq<Keyed>, now: int, k: int)
    requires Unique(docs) && Prepare(docs, batch, |batch|, now).Some? && First(batch, k)
    ensures Covers(Prepare(docs, batch, |batch|, now).value.docs, batch[k]) <==>
      !New(docs, batch, k) || Inserts(docs, batch, k)
      || OldHas(docs, batch, |batch|, batch[k].content) || InsertionHas(docs, batch, |batch|, batch[k].content)
  {
    var p := Prepare(docs, batch, |batch|, now).value;
    PreparedTable(docs, batch, |batch|, now);
    InsertedExactly(docs, batch, |batch|, now);
    ContentAfter(docs, batch, |batch|, now, p, batch[k].content);
    if !New(docs, batch, k) {
      KeepsItsRow(docs, batch, now, p, batch[k].unique);
    }
  }

  /** A first document ends up with neither a row nor its content present exactly when it is stranded. */
  lemma UncoveredExactly(docs: seq<Row>, batch: seq<Keyed>, now: int, k: int)
    requires Unique(docs) && Prepare(docs, batch, |batch|, now).Some? && First(batch, k)
    ensures Covers(Prepare(docs, batch, |batch|, now).value.docs, batch[k]) <==> !Stranded(docs, batch, k)
  {
    CoversExactly(docs, batch, now, k);
    if Stranded(docs, batch, k) {
      var a, f :| Displaced(docs, batch, k, a, f);
      StrandedIsUncovered(docs, batch, k, a, f);
    } else if !Covers(Prepare(docs, batch, |batch|, now).value.docs, batch[k]) {
      UncoveredIsStranded(docs, batch, k);
    }
  }

  lemma UncoveredIsStranded(docs: seq<Row>, batch: seq<Keyed>, k: int)
    requires Unique(docs) && New(docs, batch, k) && !Inserts(docs, batch, k)
    requires !OldHas(docs, batch, |batch|, batch[k].content) && !InsertionHas(docs, batch, |batch|, batch[k].content)
    ensures Stranded(docs, batch, k)
  {
    var a :| 0 <= a < |docs| && HashAfter(docs[a], batch, k) == batch[k].content;
    LosesContent(docs[a], batch, k);
    var f := FirstFor(batch, |batch|, docs[a].uniqueHash.value).value;
    assert f != k;
    forall m | f < m < |batch| && New(docs, batch, m)
      ensures batch[m].content != batch[k].content
    {
      if batch[m].content == batch[k].content {
        LaterNewIsInserted(docs, batch, a, f, m);
      }
    }
    assert Displaced(docs, batch, k, a, f);
  }

  lemma IndexedCoversSame(docs: seq<Row>, ids: seq<int>, docs': seq<Row>, c: Keyed)
    requires Indexed(docs, ids, docs')
    ensures Covers(docs', c) <==> Covers(docs, c)
  {
    if Covers(docs, c) {
      IndexedKeepsCover(docs, ids, docs', c);
    }
    if FindUnique(docs', c.unique).Some? {
      assert docs[FindUnique(docs', c.unique).value].uniqueHash == Some(c.unique);
    }
    if i :| 0 <= i < |docs'| && docs'[i].contentHash == c.content {
      assert docs[i].contentHash == c.content;
    }
  }

  /** From a settled table a prepare is idle exactly when the table covers every first document. */
  lemma IdleExactly(docs: seq<Row>, batch: seq<Keyed>, now: int)
    requires Unique(docs) && Settled(docs, batch)
    ensures CoversFirsts(docs, batch, |batch|) <==>
      match Prepare(docs, batch, |batch|, now)
      case None => false
      case Some(p) => p.docs == docs && p.ids == []
  {
    SettledPrepares(docs, batch, |batch|, now);
    if CoversFirsts(docs, batch, |batch|) {
      CoveredPrepareIsIdle(docs, batch, |batch|, now);
    }
  }

  /** One run is enough exactly when no document is stranded. */
  lemma OneRunIsEnoughExactly(docs0: seq<Row>, batch: seq<Keyed>, now1: int, docs1: seq<Row>, now2: int)
    requires Unique(docs0) && Prepare(docs0, batch, |batch|, now1).Some?
    requires var p := Prepare(docs0, batch, |batch|, now1).value; Indexed(p.docs, p.ids, docs1)
    ensures (match Prepare(docs1, batch, |batch|, now2)
             case None => false
             case Some(q) => q.docs == docs1 && q.ids == [])
      <==> forall k :: 0 <= k < |batch| ==> !Stranded(docs0, batch, k)
  {
    var p := Prepare(docs0, batch, |batch|, now1).value;
    PrepareThenIndexSettles(docs0, batch, now1, docs1);
    IdleExactly(docs1, batch, now2);
    forall k | 0 <= k < |batch| && First(batch, k)
      ensures Covers(docs1, batch[k]) <==> !Stranded(docs0, batch, k)
    {
      UncoveredExactly(docs0, batch, now1, k);
      IndexedCoversSame(p.docs, p.ids, docs1, batch[k]);
    }
    forall k | 0 <= k < |batch|
      ensures First(batch, k) <==> FirstFor(batch, |batch|, batch[k].unique) == Some(k)
    {
      FirstStays(batch, k, |batch|);
    }
  }
}
