/** What a committed `prepare_for_indexing` has done, row by row. */
module PrepareTheorems {
  import opened Common
  import opened DocumentChunker
  import opened Tables
  import opened Preparing

  /** The identifiers seen are those of the batch so far. */
  ghost predicate SeenOk(batch: seq<Keyed>, n: nat, p: Plan)
    requires n <= |batch|
  {
    forall u :: u in p.seen <==> FirstFor(batch, n, u).Some?
  }

  /** Every old row is as its first document leaves it. */
  ghost predicate OldOk(docs: seq<Row>, batch: seq<Keyed>, n: nat, now: int, p: Plan)
    requires n <= |batch|
  {
    |docs| <= |p.docs| && forall j :: 0 <= j < |docs| ==> p.docs[j] == RowAfter(docs[j], batch, n, now)
  }

  /** Every new row belongs to a first document that had no row. */
  ghost predicate NewOk(docs: seq<Row>, batch: seq<Keyed>, n: nat, now: int, p: Plan)
    requires n <= |batch|
  {
    forall j :: |docs| <= j < |p.docs| ==> Inserted(docs, batch, n, now, p.docs[j])
  }

  ghost predicate Inserted(docs: seq<Row>, batch: seq<Keyed>, n: nat, now: int, row: Row)
    requires n <= |batch|
  {
    exists k :: InsertedBy(docs, batch, n, now, row, k)
  }

  ghost predicate InsertedBy(docs: seq<Row>, batch: seq<Keyed>, n: nat, now: int, row: Row, k: int)
    requires n <= |batch|
  {
    && 0 <= k < n && row == NewRow(batch[k], now)
    && FirstFor(batch, n, batch[k].unique) == Some(k)
    && FindUnique(docs, batch[k].unique) == None
  }

  /** The ids returned are, once each, the new rows and the old rows that were changed or not ready. */
  ghost predicate IdsOk(docs: seq<Row>, batch: seq<Keyed>, n: nat, p: Plan)
    requires n <= |batch|
  {
    && (forall i :: i in p.ids <==> 0 <= i < |p.docs| && (i < |docs| ==> Returned(docs[i], batch, n)))
    && Distinct(p.ids)
  }

  lemma SeenStep(batch: seq<Keyed>, n: nat, p: Plan, now: int)
    requires 0 < n <= |batch| && SeenOk(batch, n - 1, p)
    ensures SeenOk(batch, n, Turn(p, batch[n - 1], now))
  {
    var q := Turn(p, batch[n - 1], now);
    assert forall u :: u in q.seen <==> FirstFor(batch, n, u).Some?;
  }

  lemma InsertedIsSeen(docs: seq<Row>, batch: seq<Keyed>, n: nat, now: int, row: Row)
    requires n <= |batch| && Inserted(docs, batch, n, now, row)
    ensures row.uniqueHash.Some? && FirstFor(batch, n, row.uniqueHash.value).Some?
    ensures row.status == Pending && FindUnique(docs, row.uniqueHash.value) == None
  {
    var k :| InsertedBy(docs, batch, n, now, row, k);
  }

  lemma OldKeepsIdentity(row: Row, batch: seq<Keyed>, n: nat, now: int)
    requires n <= |batch|
    ensures RowAfter(row, batch, n, now).uniqueHash == row.uniqueHash
    ensures row.uniqueHash.Some? && FirstFor(batch, n, row.uniqueHash.value).None? ==>
      RowAfter(row, batch, n, now) == row
  {
  }

  /** The row a first document finds is an old one, still untouched. */
  lemma {:induction false} FoundRowIsOld(docs: seq<Row>, batch: seq<Keyed>, n: nat, now: int, p: Plan, u: string)
    requires n <= |batch| && OldOk(docs, batch, n, now, p) && NewOk(docs, batch, n, now, p)
    requires FirstFor(batch, n, u).None?
    ensures match FindUnique(p.docs, u)
            case Some(i) => i < |docs| && p.docs[i] == docs[i]
            case None => FindUnique(docs, u) == None
  {
    match FindUnique(p.docs, u)
    case Some(i) =>
      if i < |docs| {
        OldKeepsIdentity(docs[i], batch, n, now);
      } else {
        InsertedIsSeen(docs, batch, n, now, p.docs[i]);
      }
    case None =>
      match FindUnique(docs, u)
      case None =>
      case Some(i) => OldKeepsIdentity(docs[i], batch, n, now);
  }

  lemma RowAfterStep(row: Row, batch: seq<Keyed>, n: nat, now: int)
    requires 0 < n <= |batch|
    ensures (!batch[n - 1].doc.encodable || row.uniqueHash != Some(batch[n - 1].unique)
         || FirstFor(batch, n - 1, batch[n - 1].unique).Some?)
         ==> (RowAfter(row, batch, n, now) == RowAfter(row, batch, n - 1, now)
          && Returned(row, batch, n) == Returned(row, batch, n - 1))
    ensures batch[n - 1].doc.encodable && row.uniqueHash == Some(batch[n - 1].unique)
         && FirstFor(batch, n - 1, batch[n - 1].unique).None?
         ==> (RowAfter(row, batch, n, now) == Touched(row, batch[n - 1], now)
          && Returned(row, batch, n) == NeedsIndexing(row, batch[n - 1])
          && !Returned(row, batch, n - 1))
  {
  }

  /** Only the found row has the identifier of the document. */
  lemma OthersDiffer(docs: seq<Row>, u: string, i: int, j: int)
    requires Unique(docs) && 0 <= i < |docs| && 0 <= j < |docs| && i != j && docs[i].uniqueHash == Some(u)
    ensures docs[j].uniqueHash != Some(u)
  {
    assert i < j ==> !Clash(docs[i], docs[j]);
    assert j < i ==> !Clash(docs[j], docs[i]);
  }

  /** One old row in a first document's turn. */
  lemma OldRowStep(docs: seq<Row>, batch: seq<Keyed>, n: nat, now: int, p: Plan, j: int)
    requires 0 < n <= |batch| && Unique(docs) && 0 <= j < |docs|
    requires batch[n - 1].doc.encodable && batch[n - 1].unique !in p.seen
    requires FirstFor(batch, n - 1, batch[n - 1].unique).None?
    requires OldOk(docs, batch, n - 1, now, p) && NewOk(docs, batch, n - 1, now, p)
    ensures Turn(p, batch[n - 1], now).docs[j] == RowAfter(docs[j], batch, n, now)
  {
    var u := batch[n - 1].unique;
    FoundRowIsOld(docs, batch, n - 1, now, p, u);
    RowAfterStep(docs[j], batch, n, now);
    if FindUnique(p.docs, u).Some? && FindUnique(p.docs, u).value != j {
      OthersDiffer(docs, u, FindUnique(p.docs, u).value, j);
    }
  }

  lemma OldStep(docs: seq<Row>, batch: seq<Keyed>, n: nat, now: int, p: Plan)
    requires 0 < n <= |batch| && Unique(docs)
    requires SeenOk(batch, n - 1, p) && OldOk(docs, batch, n - 1, now, p) && NewOk(docs, batch, n - 1, now, p)
    ensures OldOk(docs, batch, n, now, Turn(p, batch[n - 1], now))
  {
    forall j | 0 <= j < |docs|
      ensures Turn(p, batch[n - 1], now).docs[j] == RowAfter(docs[j], batch, n, now)
    {
      if batch[n - 1].doc.encodable && FirstFor(batch, n - 1, batch[n - 1].unique).None? {
        OldRowStep(docs, batch, n, now, p, j);
      } else {
        RowAfterStep(docs[j], batch, n, now);
      }
    }
  }

  lemma TurnKeepsNewRow(docs: seq<Row>, batch: seq<Keyed>, n: nat, now: int, p: Plan, j: int)
    requires 0 < n <= |batch| && SeenOk(batch, n - 1, p)
    requires OldOk(docs, batch, n - 1, now, p) && NewOk(docs, batch, n - 1, now, p)
    requires |docs| <= j < |p.docs|
    ensures Inserted(docs, batch, n, now, Turn(p, batch[n - 1], now).docs[j])
  {
    if FirstFor(batch, n - 1, batch[n - 1].unique).None? {
      FoundRowIsOld(docs, batch, n - 1, now, p, batch[n - 1].unique);
    }
    assert Turn(p, batch[n - 1], now).docs[j] == p.docs[j];
    var k :| InsertedBy(docs, batch, n - 1, now, p.docs[j], k);
    assert InsertedBy(docs, batch, n, now, p.docs[j], k);
  }

  lemma NewStep(docs: seq<Row>, batch: seq<Keyed>, n: nat, now: int, p: Plan)
    requires 0 < n <= |batch|
    requires SeenOk(batch, n - 1, p) && OldOk(docs, batch, n - 1, now, p) && NewOk(docs, batch, n - 1, now, p)
    ensures NewOk(docs, batch, n, now, Turn(p, batch[n - 1], now))
  {
    var q := Turn(p, batch[n - 1], now);
    forall j | |docs| <= j < |q.docs|
      ensures Inserted(docs, batch, n, now, q.docs[j])
    {
      if j < |p.docs| {
        TurnKeepsNewRow(docs, batch, n, now, p, j);
      } else {
        FoundRowIsOld(docs, batch, n - 1, now, p, batch[n - 1].unique);
        assert InsertedBy(docs, batch, n, now, q.docs[j], n - 1);
      }
    }
  }

  ghost predicate Distinct(ids: seq<int>) {
    forall a, b :: 0 <= a < b < |ids| ==> ids[a] != ids[b]
  }

  lemma IdsUnchanged(docs: seq<Row>, batch: seq<Keyed>, n: nat, p: Plan, q: Plan)
    requires 0 < n <= |batch| && IdsOk(docs, batch, n - 1, p)
    requires q.ids == p.ids && |q.docs| == |p.docs|
    requires forall i :: 0 <= i < |docs| ==> Returned(docs[i], batch, n) == Returned(docs[i], batch, n - 1)
    ensures IdsOk(docs, batch, n, q)
  {
  }

  lemma IdsExtended(docs: seq<Row>, batch: seq<Keyed>, n: nat, p: Plan, q: Plan, x: int)
    requires 0 < n <= |batch| && IdsOk(docs, batch, n - 1, p) && |docs| <= |p.docs|
    requires q.ids == p.ids + [x] && |q.docs| == (if x < |docs| then |p.docs| else |p.docs| + 1)
    requires 0 <= x && (x < |docs| ==> Returned(docs[x], batch, n) && !Returned(docs[x], batch, n - 1))
    requires x >= |docs| ==> x == |p.docs|
    requires forall i :: 0 <= i < |docs| && i != x ==> Returned(docs[i], batch, n) == Returned(docs[i], batch, n - 1)
    ensures IdsOk(docs, batch, n, q)
  {
    assert x !in p.ids;
  }

  /** A first document's turn. */
  lemma OwnIdsStep(docs: seq<Row>, batch: seq<Keyed>, n: nat, now: int, p: Plan)
    requires 0 < n <= |batch| && IdsOk(docs, batch, n - 1, p) && |docs| <= |p.docs|
    requires batch[n - 1].doc.encodable && batch[n - 1].unique !in p.seen
    requires forall i :: 0 <= i < |docs| ==> ReturnedBy(docs, batch, n, p, i)
    requires match FindUnique(p.docs, batch[n - 1].unique)
             case Some(i) => i < |docs| && p.docs[i] == docs[i]
             case None => true
    ensures IdsOk(docs, batch, n, Turn(p, batch[n - 1], now))
  {
    var c := batch[n - 1];
    var q := Turn(p, c, now);
    forall i | 0 <= i < |docs| && FindUnique(p.docs, c.unique) != Some(i)
      ensures Returned(docs[i], batch, n) == Returned(docs[i], batch, n - 1)
    {
      assert ReturnedBy(docs, batch, n, p, i);
    }
    match FindUnique(p.docs, c.unique)
    case Some(f) =>
      assert ReturnedBy(docs, batch, n, p, f);
      if NeedsIndexing(docs[f], c) {
        IdsExtended(docs, batch, n, p, q, f);
      } else {
        IdsUnchanged(docs, batch, n, p, q);
      }
    case None =>
      if HasContent(p.docs, c.content) {
        IdsUnchanged(docs, batch, n, p, q);
      } else {
        IdsExtended(docs, batch, n, p, q, |p.docs|);
      }
  }

  lemma IdsStep(docs: seq<Row>, batch: seq<Keyed>, n: nat, now: int, p: Plan)
    requires 0 < n <= |batch| && Unique(docs)
    requires SeenOk(batch, n - 1, p) && OldOk(docs, batch, n - 1, now, p) && NewOk(docs, batch, n - 1, now, p)
    requires IdsOk(docs, batch, n - 1, p)
    ensures IdsOk(docs, batch, n, Turn(p, batch[n - 1], now))
  {
    if !batch[n - 1].doc.encodable || batch[n - 1].unique in p.seen {
      forall i | 0 <= i < |docs|
        ensures Returned(docs[i], batch, n) == Returned(docs[i], batch, n - 1)
      {
        RowAfterStep(docs[i], batch, n, now);
      }
      IdsUnchanged(docs, batch, n, p, p);
    } else {
      FoundRowIsOld(docs, batch, n - 1, now, p, batch[n - 1].unique);
      forall i | 0 <= i < |docs|
        ensures ReturnedBy(docs, batch, n, p, i)
      {
        ReturnedStep(docs, batch, n, now, p, i);
      }
      OwnIdsStep(docs, batch, n, now, p);
    }
  }

  /** Whether a first document makes an old row returned. */
  ghost predicate ReturnedBy(docs: seq<Row>, batch: seq<Keyed>, n: nat, p: Plan, i: int)
    requires 0 < n <= |batch| && 0 <= i < |docs|
  {
    if FindUnique(p.docs, batch[n - 1].unique) == Some(i)
    then Returned(docs[i], batch, n) == NeedsIndexing(docs[i], batch[n - 1]) && !Returned(docs[i], batch, n - 1)
    else Returned(docs[i], batch, n) == Returned(docs[i], batch, n - 1)
  }

  lemma ReturnedStep(docs: seq<Row>, batch: seq<Keyed>, n: nat, now: int, p: Plan, i: int)
    requires 0 < n <= |batch| && Unique(docs) && batch[n - 1].doc.encodable && 0 <= i < |docs|
    requires FirstFor(batch, n - 1, batch[n - 1].unique).None?
    requires OldOk(docs, batch, n - 1, now, p) && NewOk(docs, batch, n - 1, now, p)
    ensures ReturnedBy(docs, batch, n, p, i)
  {
    var f := FindUnique(p.docs, batch[n - 1].unique);
    FoundRowIsOld(docs, batch, n - 1, now, p, batch[n - 1].unique);
    RowAfterStep(docs[i], batch, n, now);
    if f.Some? && f.value != i {
      OthersDiffer(docs, batch[n - 1].unique, f.value, i);
    }
  }

  /** Everything above, for a transaction that was not lost. */
  lemma {:induction false} PreparedTable(docs: seq<Row>, batch: seq<Keyed>, n: nat, now: int)
    requires n <= |batch| && Unique(docs) && Prepare(docs, batch, n, now).Some?
    ensures var p := Prepare(docs, batch, n, now).value;
      && Unique(p.docs) && SeenOk(batch, n, p) && OldOk(docs, batch, n, now, p)
      && NewOk(docs, batch, n, now, p) && IdsOk(docs, batch, n, p)
  {
    if n > 0 {
      PreparedTable(docs, batch, n - 1, now);
      var p := Prepare(docs, batch, n - 1, now).value;
      SeenStep(batch, n, p, now);
      OldStep(docs, batch, n, now, p);
      NewStep(docs, batch, n, now, p);
      IdsStep(docs, batch, n, now, p);
    } else {
      assert forall j :: 0 <= j < |docs| ==> docs[j] == RowAfter(docs[j], batch, 0, now);
    }
  }

  /** Every document returned is pending. */
  lemma ReturnedArePending(docs: seq<Row>, batch: seq<Keyed>, now: int, i: int)
    requires Unique(docs) && Prepare(docs, batch, |batch|, now).Some?
    requires i in Prepare(docs, batch, |batch|, now).value.ids
    ensures 0 <= i < |Prepare(docs, batch, |batch|, now).value.docs|
    ensures Prepare(docs, batch, |batch|, now).value.docs[i].status == Pending
  {
    PreparedTable(docs, batch, |batch|, now);
    var p := Prepare(docs, batch, |batch|, now).value;
    if i < |docs| {
      assert p.docs[i] == RowAfter(docs[i], batch, |batch|, now);
    } else {
      InsertedIsSeen(docs, batch, |batch|, now, p.docs[i]);
    }
  }

  // ---------- the rows, column by column ----------

  /** What a committed batch does to the row of a first document. */
  lemma RowOfDocument(docs: seq<Row>, batch: seq<Keyed>, now: int, d: int, k: int)
    requires Unique(docs) && Prepare(docs, batch, |batch|, now).Some? && 0 <= d < |docs| && docs[d].uniqueHash.Some?
    requires FirstFor(batch, |batch|, docs[d].uniqueHash.value) == Some(k)
    ensures d < |Prepare(docs, batch, |batch|, now).value.docs|
    ensures var p, r, c := Prepare(docs, batch, |batch|, now).value, docs[d], batch[k];
      var r' := p.docs[d];
      var changed := r.contentHash != c.content;
      && r'.title == c.doc.title && r'.contentHash == c.content
      && r'.kind == r.kind && r'.space == r.space && r'.uniqueHash == r.uniqueHash
      && r'.content == r.content && r'.embedding == r.embedding
      && r'.source == (if changed then Some(c.doc.markdown) else r.source)
      && r'.metadata == (if changed then c.doc.metadata else r.metadata)
      && r'.status == (if changed || r.status != Ready then Pending else Ready)
      && r'.updatedAt == (if changed || r.status != Ready || r.title != c.doc.title then now else r.updatedAt)
      && (d in p.ids <==> changed || r.status != Ready)
  {
    PreparedTable(docs, batch, |batch|, now);
    assert Prepare(docs, batch, |batch|, now).value.docs[d] == RowAfter(docs[d], batch, |batch|, now);
  }

  /** A row that no document of the batch names is as before, and is not returned. */
  lemma RowOfNobody(docs: seq<Row>, batch: seq<Keyed>, now: int, d: int)
    requires Unique(docs) && Prepare(docs, batch, |batch|, now).Some? && 0 <= d < |docs|
    requires docs[d].uniqueHash.Some? ==>
      forall k :: 0 <= k < |batch| && batch[k].doc.encodable ==> batch[k].unique != docs[d].uniqueHash.value
    ensures d < |Prepare(docs, batch, |batch|, now).value.docs|
    ensures Prepare(docs, batch, |batch|, now).value.docs[d] == docs[d]
    ensures d !in Prepare(docs, batch, |batch|, now).value.ids
  {
    PreparedTable(docs, batch, |batch|, now);
    assert Prepare(docs, batch, |batch|, now).value.docs[d] == RowAfter(docs[d], batch, |batch|, now);
    if docs[d].uniqueHash.Some? {
      FirstForMeans(batch, |batch|, docs[d].uniqueHash.value, 0);
    }
  }

  /** An inserted row holds its document, with a placeholder for the content, and is returned. */
  lemma RowOfNewDocument(docs: seq<Row>, batch: seq<Keyed>, now: int, d: int) returns (k: int)
    requires Unique(docs) && Prepare(docs, batch, |batch|, now).Some?
    requires |docs| <= d < |Prepare(docs, batch, |batch|, now).value.docs|
    ensures 0 <= k < |batch| && FirstFor(batch, |batch|, batch[k].unique) == Some(k)
    ensures var p, c := Prepare(docs, batch, |batch|, now).value, batch[k];
      var r := p.docs[d];
      && r.title == c.doc.title && r.kind == c.doc.kind && r.space == c.doc.space
      && r.uniqueHash == Some(c.unique) && r.contentHash == c.content
      && r.source == Some(c.doc.markdown) && r.metadata == c.doc.metadata
      && r.content == "Pending..." && r.embedding == None && r.status == Pending && r.updatedAt == now
      && d in p.ids
  {
    PreparedTable(docs, batch, |batch|, now);
    k :| InsertedBy(docs, batch, |batch|, now, Prepare(docs, batch, |batch|, now).value.docs[d], k);
  }

  /** A document that rewrites its row to content some other row already has. */
  ghost predicate Collides(p: Plan, c: Keyed) {
    && c.doc.encodable && c.unique !in p.seen
    && exists i, j :: CollidesAt(p.docs, c, i, j)
  }

  ghost predicate CollidesAt(docs: seq<Row>, c: Keyed, i: int, j: int) {
    && 0 <= i < |docs| && 0 <= j < |docs| && i != j
    && docs[i].uniqueHash == Some(c.unique) && Changed(docs[i], c) && docs[j].contentHash == c.content
  }

  lemma RewriteKeepsUnique(docs: seq<Row>, c: Keyed, i: int, now: int)
    requires Unique(docs) && 0 <= i < |docs| && docs[i].uniqueHash == Some(c.unique)
    requires forall j :: !CollidesAt(docs, c, i, j)
    ensures Unique(docs[i := Touched(docs[i], c, now)])
  {
    var next := docs[i := Touched(docs[i], c, now)];
    forall a, b | 0 <= a < b < |next|
      ensures !Clash(next[a], next[b])
    {
      assert !Clash(docs[a], docs[b]);
      assert !CollidesAt(docs, c, i, a) && !CollidesAt(docs, c, i, b);
    }
  }

  lemma InsertKeepsUnique(docs: seq<Row>, c: Keyed, now: int)
    requires Unique(docs) && FindUnique(docs, c.unique) == None && !HasContent(docs, c.content)
    ensures Unique(docs + [NewRow(c, now)])
  {
    var next := docs + [NewRow(c, now)];
    forall a, b | 0 <= a < b < |next|
      ensures !Clash(next[a], next[b])
    {
      if b < |docs| {
        assert !Clash(docs[a], docs[b]);
      }
    }
  }

  lemma CollisionBreaksUnique(docs: seq<Row>, c: Keyed, i: int, j: int, now: int)
    requires CollidesAt(docs, c, i, j)
    ensures !Unique(docs[i := Touched(docs[i], c, now)])
  {
    var next := docs[i := Touched(docs[i], c, now)];
    assert Clash(next[i], next[j]) && Clash(next[j], next[i]);
  }

  /** A turn breaks a unique constraint exactly when it rewrites a row to content that is taken. */
  lemma TurnConflictsExactly(p: Plan, c: Keyed, now: int)
    requires Unique(p.docs)
    ensures Unique(Turn(p, c, now).docs) <==> !Collides(p, c)
  {
    if c.doc.encodable && c.unique !in p.seen {
      match FindUnique(p.docs, c.unique)
      case Some(i) =>
        if j :| CollidesAt(p.docs, c, i, j) {
          CollisionBreaksUnique(p.docs, c, i, j, now);
        } else {
          RewriteKeepsUnique(p.docs, c, i, now);
          forall a, b
            ensures !CollidesAt(p.docs, c, a, b)
          {
            if CollidesAt(p.docs, c, a, b) && a != i {
              OthersDiffer(p.docs, c.unique, i, a);
            }
          }
        }
      case None =>
        if !HasContent(p.docs, c.content) {
          InsertKeepsUnique(p.docs, c, now);
        }
    }
  }

  lemma PreparedIsUnique(docs: seq<Row>, batch: seq<Keyed>, n: nat, now: int)
    requires n <= |batch| && Unique(docs) && Prepare(docs, batch, n, now).Some?
    ensures Unique(Prepare(docs, batch, n, now).value.docs)
  {
  }

  // ---------- which documents are inserted, and when a batch is lost, from the table and the batch ----------

  lemma {:induction false} FirstForStays(batch: seq<Keyed>, m: nat, n: nat, u: string)
    requires m <= n <= |batch| && FirstFor(batch, m, u).Some?
    ensures FirstFor(batch, n, u) == FirstFor(batch, m, u)
    decreases n
  {
    if m < n {
      FirstForStays(batch, m, n - 1, u);
    }
  }

  /** Document `k` is the first of the batch with its identifier. */
  predicate First(batch: seq<Keyed>, k: int) {
    0 <= k < |batch| && FirstFor(batch, k + 1, batch[k].unique) == Some(k)
  }

  /** It is, and no row has the identifier. */
  predicate New(docs: seq<Row>, batch: seq<Keyed>, k: int) {
    First(batch, k) && FindUnique(docs, batch[k].unique) == None
  }

  /** The content hash of an old row after `n` turns. */
  function HashAfter(row: Row, batch: seq<Keyed>, n: nat): string
    requires n <= |batch|
  {
    if row.uniqueHash == None then row.contentHash
    else match FirstFor(batch, n, row.uniqueHash.value)
         case None => row.contentHash
         case Some(k) => batch[k].content
  }

  ghost predicate OldHas(docs: seq<Row>, batch: seq<Keyed>, n: nat, h: string)
    requires n <= |batch|
  {
    exists j :: 0 <= j < |docs| && HashAfter(docs[j], batch, n) == h
  }

  /** A new document is inserted when neither an old row nor an earlier insertion has its content at its turn. */
  ghost predicate Inserts(docs: seq<Row>, batch: seq<Keyed>, k: int)
    decreases k
  {
    New(docs, batch, k) && !OldHas(docs, batch, k, batch[k].content)
    && forall m :: 0 <= m < k && Inserts(docs, batch, m) ==> batch[m].content != batch[k].content
  }

  ghost predicate InsertionHas(docs: seq<Row>, batch: seq<Keyed>, n: nat, h: string)
    requires n <= |batch|
  {
    exists m :: 0 <= m < n && Inserts(docs, batch, m) && batch[m].content == h
  }

  /** The documents inserted in the first `n` turns have a row; the other new ones have none. */
  ghost predicate InsertsOk(docs: seq<Row>, batch: seq<Keyed>, n: nat, p: Plan)
    requires n <= |batch|
  {
    forall k :: 0 <= k < n && New(docs, batch, k) ==>
      (FindUnique(p.docs, batch[k].unique).Some? <==> Inserts(docs, batch, k))
  }

  lemma FirstStays(batch: seq<Keyed>, k: int, n: nat)
    requires 0 <= k < n <= |batch|
    ensures First(batch, k) <==> FirstFor(batch, n, batch[k].unique) == Some(k)
  {
    FirstForMeans(batch, n, batch[k].unique, k);
    FirstForMeans(batch, k + 1, batch[k].unique, k);
  }

  /** An inserted document's row is found past the old rows, and has its content. */
  lemma InsertedRow(docs: seq<Row>, batch: seq<Keyed>, n: nat, now: int, p: Plan, m: int)
    requires n <= |batch| && 0 <= m < n && New(docs, batch, m)
    requires OldOk(docs, batch, n, now, p) && NewOk(docs, batch, n, now, p)
    requires FindUnique(p.docs, batch[m].unique).Some?
    ensures HasContent(p.docs, batch[m].content)
  {
    var i := FindUnique(p.docs, batch[m].unique).value;
    if i < |docs| {
      OldKeepsIdentity(docs[i], batch, n, now);
      assert false;
    }
    var k :| InsertedBy(docs, batch, n, now, p.docs[i], k);
    FirstStays(batch, m, n);
    assert p.docs[i].contentHash == batch[m].content;
  }

  lemma RowAfterHash(row: Row, batch: seq<Keyed>, n: nat, now: int)
    requires n <= |batch|
    ensures RowAfter(row, batch, n, now).contentHash == HashAfter(row, batch, n)
  {
  }

  /** What content the table has after `n` turns, from the table and the batch. */
  lemma ContentAfter(docs: seq<Row>, batch: seq<Keyed>, n: nat, now: int, p: Plan, h: string)
    requires n <= |batch| && OldOk(docs, batch, n, now, p) && NewOk(docs, batch, n, now, p)
    requires InsertsOk(docs, batch, n, p)
    ensures HasContent(p.docs, h) <==> OldHas(docs, batch, n, h) || InsertionHas(docs, batch, n, h)
  {
    if HasContent(p.docs, h) {
      var i :| 0 <= i < |p.docs| && p.docs[i].contentHash == h;
      if i < |docs| {
        RowAfterHash(docs[i], batch, n, now);
      } else {
        var k :| InsertedBy(docs, batch, n, now, p.docs[i], k);
        FirstStays(batch, k, n);
        assert p.docs[i].uniqueHash == Some(batch[k].unique);
        assert Inserts(docs, batch, k);
      }
    }
    if j :| 0 <= j < |docs| && HashAfter(docs[j], batch, n) == h {
      RowAfterHash(docs[j], batch, n, now);
      assert p.docs[j].contentHash == h;
    }
    if m :| 0 <= m < n && Inserts(docs, batch, m) && batch[m].content == h {
      InsertedRow(docs, batch, n, now, p, m);
    }
  }

  /** A turn gives a row to its own document at most. */
  lemma {:induction false} TurnKeepsIdentifiers(p: Plan, c: Keyed, now: int, u: string)
    requires u != c.unique
    ensures FindUnique(Turn(p, c, now).docs, u).Some? <==> FindUnique(p.docs, u).Some?
  {
    var q := Turn(p, c, now).docs;
    assert forall i :: 0 <= i < |p.docs| ==> q[i].uniqueHash == p.docs[i].uniqueHash;
    assert forall i :: |p.docs| <= i < |q| ==> q[i].uniqueHash == Some(c.unique);
    if FindUnique(p.docs, u).Some? {
      assert q[FindUnique(p.docs, u).value].uniqueHash == Some(u);
    }
    if FindUnique(q, u).Some? {
      assert p.docs[FindUnique(q, u).value].uniqueHash == Some(u);
    }
  }

  lemma OwnTurn(p: Plan, c: Keyed, now: int)
    requires c.doc.encodable && c.unique !in p.seen && FindUnique(p.docs, c.unique) == None
    ensures FindUnique(Turn(p, c, now).docs, c.unique).Some? <==> !HasContent(p.docs, c.content)
  {
    var q := Turn(p, c, now);
    if !HasContent(p.docs, c.content) {
      assert q.docs[|p.docs|].uniqueHash == Some(c.unique);
    }
  }

  /** The document at its own turn. */
  lemma OwnInsertsStep(docs: seq<Row>, batch: seq<Keyed>, k: nat, now: int, p: Plan)
    requires k < |batch| && SeenOk(batch, k, p) && InsertsOk(docs, batch, k, p)
    requires OldOk(docs, batch, k, now, p) && NewOk(docs, batch, k, now, p)
    requires New(docs, batch, k)
    ensures FindUnique(Turn(p, batch[k], now).docs, batch[k].unique).Some? <==> Inserts(docs, batch, k)
  {
    FirstForMeans(batch, k + 1, batch[k].unique, k);
    FirstForMeans(batch, k, batch[k].unique, k);
    FoundRowIsOld(docs, batch, k, now, p, batch[k].unique);
    OwnTurn(p, batch[k], now);
    ContentAfter(docs, batch, k, now, p, batch[k].content);
  }

  /** A later document with a known identifier is skipped. */
  lemma KnownIsSkipped(batch: seq<Keyed>, n: nat, now: int, p: Plan, k: int)
    requires 0 < n <= |batch| && SeenOk(batch, n - 1, p) && 0 <= k < n - 1 && First(batch, k)
    requires batch[n - 1].unique == batch[k].unique
    ensures Turn(p, batch[n - 1], now) == p
  {
    FirstStays(batch, k, n - 1);
  }

  lemma InsertsStep(docs: seq<Row>, batch: seq<Keyed>, n: nat, now: int, p: Plan, k: int)
    requires 0 < n <= |batch| && SeenOk(batch, n - 1, p) && InsertsOk(docs, batch, n - 1, p)
    requires OldOk(docs, batch, n - 1, now, p) && NewOk(docs, batch, n - 1, now, p)
    requires 0 <= k < n && New(docs, batch, k)
    ensures FindUnique(Turn(p, batch[n - 1], now).docs, batch[k].unique).Some? <==> Inserts(docs, batch, k)
  {
    if k == n - 1 {
      OwnInsertsStep(docs, batch, k, now, p);
    } else if batch[n - 1].unique != batch[k].unique {
      TurnKeepsIdentifiers(p, batch[n - 1], now, batch[k].unique);
    } else {
      KnownIsSkipped(batch, n, now, p, k);
    }
  }

  /** A committed batch inserts exactly the new documents whose content is not there at their turn. */
  lemma {:induction false} InsertedExactly(docs: seq<Row>, batch: seq<Keyed>, n: nat, now: int)
    requires n <= |batch| && Unique(docs) && Prepare(docs, batch, n, now).Some?
    ensures InsertsOk(docs, batch, n, Prepare(docs, batch, n, now).value)
  {
    if n > 0 {
      InsertedExactly(docs, batch, n - 1, now);
      PreparedTable(docs, batch, n - 1, now);
      var p := Prepare(docs, batch, n - 1, now).value;
      forall k | 0 <= k < n && New(docs, batch, k)
        ensures FindUnique(Turn(p, batch[n - 1], now).docs, batch[k].unique).Some? <==> Inserts(docs, batch, k)
      {
        InsertsStep(docs, batch, n, now, p, k);
      }
    }
  }

  /** Document `k` rewrites its row to content that an old row or an insertion has at that turn. */
  ghost predicate RewritesToTaken(docs: seq<Row>, batch: seq<Keyed>, k: int) {
    First(batch, k) && FindUnique(docs, batch[k].unique).Some?
    && docs[FindUnique(docs, batch[k].unique).value].contentHash != batch[k].content
    && (OldHas(docs, batch, k, batch[k].content) || InsertionHas(docs, batch, k, batch[k].content))
  }

  lemma CollidesExactly(docs: seq<Row>, batch: seq<Keyed>, k: nat, now: int)
    requires k < |batch| && Unique(docs) && Prepare(docs, batch, k, now).Some?
    ensures Collides(Prepare(docs, batch, k, now).value, batch[k]) <==> RewritesToTaken(docs, batch, k)
  {
    var p, c := Prepare(docs, batch, k, now).value, batch[k];
    PreparedTable(docs, batch, k, now);
    InsertedExactly(docs, batch, k, now);
    ContentAfter(docs, batch, k, now, p, c.content);
    FirstForMeans(batch, k + 1, c.unique, k);
    FirstForMeans(batch, k, c.unique, k);
    if First(batch, k) {
      FoundIsTheRow(docs, batch, k, now, p);
      if RewritesToTaken(docs, batch, k) {
        var j :| 0 <= j < |p.docs| && p.docs[j].contentHash == c.content;
        assert CollidesAt(p.docs, c, FindUnique(docs, c.unique).value, j);
      }
    }
  }

  /** The only row with the identifier of a first document is the old one, untouched so far. */
  lemma FoundIsTheRow(docs: seq<Row>, batch: seq<Keyed>, k: nat, now: int, p: Plan)
    requires k < |batch| && First(batch, k) && Unique(p.docs)
    requires OldOk(docs, batch, k, now, p) && NewOk(docs, batch, k, now, p)
    ensures forall i :: 0 <= i < |p.docs| && p.docs[i].uniqueHash == Some(batch[k].unique) ==>
      FindUnique(docs, batch[k].unique) == Some(i) && p.docs[i] == docs[i]
    ensures match FindUnique(docs, batch[k].unique)
      case Some(i) => i < |p.docs| && p.docs[i] == docs[i]
      case None => true
  {
    var u := batch[k].unique;
    FirstForMeans(batch, k + 1, u, k);
    FirstForMeans(batch, k, u, k);
    FoundRowIsOld(docs, batch, k, now, p, u);
    match FindUnique(docs, u)
    case None =>
    case Some(i) =>
      OldKeepsIdentity(docs[i], batch, k, now);
      forall j | 0 <= j < |p.docs| && p.docs[j].uniqueHash == Some(u)
        ensures j == i
      {
        if j != i {
          OthersDiffer(p.docs, u, i, j);
        }
      }
  }

  lemma LostStep(docs: seq<Row>, batch: seq<Keyed>, n: nat, now: int)
    requires 0 < n <= |batch| && Unique(docs)
    ensures Prepare(docs, batch, n, now).None? <==>
      Prepare(docs, batch, n - 1, now).None? || RewritesToTaken(docs, batch, n - 1)
  {
    if Prepare(docs, batch, n - 1, now).Some? {
      PreparedIsUnique(docs, batch, n - 1, now);
      TurnConflictsExactly(Prepare(docs, batch, n - 1, now).value, batch[n - 1], now);
      CollidesExactly(docs, batch, n - 1, now);
    }
  }

  /** The whole batch is lost exactly when some document rewrites its row to content that is taken. */
  lemma {:induction false} BatchIsLostExactly(docs: seq<Row>, batch: seq<Keyed>, n: nat, now: int)
    requires n <= |batch| && Unique(docs)
    ensures Prepare(docs, batch, n, now).None? <==> exists k :: 0 <= k < n && RewritesToTaken(docs, batch, k)
  {
    if n > 0 {
      BatchIsLostExactly(docs, batch, n - 1, now);
      LostStep(docs, batch, n, now);
    }
  }
}
