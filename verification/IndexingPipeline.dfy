/** The service of indexing_pipeline_service.py over a database session that may fail at any operation. */
module IndexingPipeline {
  import opened Common
  import opened SectionForest
  import opened DocumentChunker
  import opened Tables
  import opened IndexTransaction
  import opened Preparing
  import opened IndexingRuns
  import opened PrepareScript
  import opened Sessions

  // ---------- prepare_for_indexing ----------

  /** Nothing has failed: the session holds the plan, flushed up to the last turn. */
  ghost predicate Sailing(s: Session, t: Tables, p: Plan, flushed: seq<Row>, ids: seq<int>, seen: set<string>,
                          script: Script)
    reads s
  {
    && s.Live() && s.work == t.(docs := p.docs) && s.flushed == t.(docs := flushed) && Unique(flushed)
    && p == Plan(p.docs, ids, seen) && s.faults == script
  }

  /** A statement has failed, and the server has everything that will be lost. */
  ghost predicate InAborted(s: Session)
    reads s
  {
    s.usable && s.aborted && s.flushed == s.work && Unique(s.work.docs)
  }

  /** `op` has failed. */
  ghost predicate Wrecked(s: Session, op: Op, ids: seq<int>)
    reads s
  {
    if op.Statement? then InAborted(s) && ids == op.ids else !s.usable
  }

  /** The look-ups of one turn: by identifier, and by content when there is no row. */
  method FindRow(s: Session, key: Keyed, ghost ids: seq<int>, ghost seen: set<string>, ghost t: Tables, ghost p: Plan,
                 ghost flushed: seq<Row>)
    returns (o: Outcome, existing: Option<int>)
    modifies s`faults, s`usable, s`aborted, s`flushed
    ensures existing.Some? ==> 0 <= existing.value < |s.work.docs|
    ensures old(!s.usable) ==> !s.usable && o.Raised?
    ensures old(InAborted(s)) ==> InAborted(s) && o.Raised?
    ensures old(s.NoFaults()) ==> s.NoFaults()
    ensures old(Sailing(s, t, p, flushed, ids, seen, s.faults)) && !Skipped(p, key) ==>
      var ops := TurnOps(p, flushed, key);
      var i := FirstFailure(ops, old(s.faults));
      if i < |ops| then o.Raised? && Wrecked(s, ops[i], ids)
      else o.Done? && Sailing(s, t, p, p.docs, ids, seen, Rest(old(s.faults), |ops|))
           && existing == FindUnique(p.docs, key.unique)
  {
    ghost var n, script := |FlushOps(p.docs, flushed)|, s.faults;
    if !Skipped(p, key) {
      TurnFailure(p, flushed, key, script);
    }
    RestEntries(script, n + 1, 0);
    RestEntries(script, n + 1, 1);
    existing := None;
    o := s.Execute();
    if o.Done? {
      existing := FindUnique(s.work.docs, key.unique);
      if existing.None? {
        o := s.Execute();
      }
    }
  }

  /** What a turn does to an existing row. */
  method Diff(row: Row, key: Keyed, now: int, i: int, ids: seq<int>) returns (row': Row, ids': seq<int>)
    ensures row' == Touched(row, key, now)
    ensures ids' == if NeedsIndexing(row, key) then ids + [i] else ids
  {
    row', ids' := row, ids;
    if row.contentHash == key.content {
      if row.title != key.doc.title {
        row' := row'.(title := key.doc.title, updatedAt := now);
      }
      if row.status != Ready {
        row' := row'.(status := Pending, updatedAt := now);
        ids' := ids + [i];
      }
      return;
    }
    row' := row.(title := key.doc.title, contentHash := key.content, source := Some(key.doc.markdown),
                 metadata := key.doc.metadata, updatedAt := now, status := Pending);
    ids' := ids + [i];
  }

  /** One turn of the loop; whatever raises is logged and skipped. */
  method PrepareOne(s: Session, e: Tools, c: ConnectorDocument, now: int, ids: seq<int>, seen: set<string>,
                    ghost t: Tables, ghost p: Plan, ghost flushed: seq<Row>)
    returns (ids': seq<int>, seen': set<string>)
    modifies s`faults, s`usable, s`aborted, s`flushed, s`work
    ensures |old(s.work.docs)| <= |s.work.docs|
    ensures old(!s.usable) ==> !s.usable
    ensures old(InAborted(s)) ==> InAborted(s) && ids' == ids && s.work == old(s.work)
    ensures old(s.NoFaults()) ==> s.NoFaults()
    ensures old(Sailing(s, t, p, flushed, ids, seen, s.faults)) ==>
      var ops := TurnOps(p, flushed, Key(e, c));
      var i := FirstFailure(ops, old(s.faults));
      if i < |ops| then Wrecked(s, ops[i], ids')
      else Sailing(s, t, Turn(p, Key(e, c), now), if Skipped(p, Key(e, c)) then flushed else p.docs, ids', seen',
                   Rest(old(s.faults), |ops|))
  {
    ids', seen' := ids, seen;
    if !c.encodable {
      return;
    }
    var key := Key(e, c);
    if key.unique in seen {
      return;
    }
    seen' := seen + {key.unique};
    var o, existing := FindRow(s, key, ids, seen, t, p, flushed);
    if o.Raised? {
      return;
    }
    if existing.Some? {
      var i, row := existing.value, s.work.docs[existing.value];
      row, ids' := Diff(row, key, now, i, ids);
      s.work := s.work.(docs := s.work.docs[i := row]);
      return;
    }
    if HasContent(s.work.docs, key.content) {
      return;
    }
    ids' := ids + [|s.work.docs|];
    s.work := s.work.(docs := s.work.docs + [NewRow(key, now)]);
  }

  /** The state of the session after some operations: as planned, or as the first failure has left it. */
  ghost predicate AfterOps(s: Session, ops: seq<Op>, t: Tables, p: Plan, flushed: seq<Row>, ids: seq<int>,
                           seen: set<string>, script: Script)
    reads s
  {
    var i := FirstFailure(ops, script);
    if i < |ops| then Wrecked(s, ops[i], ids) else Sailing(s, t, p, flushed, ids, seen, Rest(script, |ops|))
  }

  ghost predicate InStep(s: Session, t: Tables, keys: seq<Keyed>, k: nat, now: int, ids: seq<int>, seen: set<string>,
                         script: Script)
    requires k <= |keys|
    reads s
  {
    AfterOps(s, OpsOf(t.docs, keys, k, now), t, PlanAt(t.docs, keys, k, now), FlushedAt(t.docs, keys, k, now), ids,
             seen, script)
  }

  /** One turn, after the operations `before`. */
  method TakeTurn(s: Session, e: Tools, c: ConnectorDocument, now: int, ids: seq<int>, seen: set<string>,
                  ghost before: seq<Op>, ghost t: Tables, ghost p: Plan, ghost flushed: seq<Row>, ghost script: Script)
    returns (ids': seq<int>, seen': set<string>)
    modifies s`faults, s`usable, s`aborted, s`flushed, s`work
    ensures |old(s.work.docs)| <= |s.work.docs|
    ensures old(!s.usable) ==> !s.usable
    ensures old(InAborted(s)) ==> InAborted(s) && ids' == ids && s.work == old(s.work)
    ensures old(s.NoFaults()) ==> s.NoFaults()
    ensures old(AfterOps(s, before, t, p, flushed, ids, seen, script)) ==>
      AfterOps(s, before + TurnOps(p, flushed, Key(e, c)), t, Turn(p, Key(e, c), now),
               if Skipped(p, Key(e, c)) then flushed else p.docs, ids', seen', script)
  {
    MoreFailures(before, TurnOps(p, flushed, Key(e, c)), before + TurnOps(p, flushed, Key(e, c)), script);
    ids', seen' := PrepareOne(s, e, c, now, ids, seen, t, p, flushed);
  }

  /** The loop. */
  method TakeTurns(s: Session, e: Tools, batch: seq<ConnectorDocument>, now: int, ghost t: Tables,
                   ghost keys: seq<Keyed>, ghost script: Script)
    returns (ids: seq<int>, seen: set<string>)
    requires keys == KeyAll(e, batch) && Unique(t.docs) && script == s.faults
    requires s.usable ==> s.work == s.flushed == t
    modifies s`faults, s`usable, s`aborted, s`flushed, s`work
    ensures |old(s.work.docs)| <= |s.work.docs|
    ensures old(s.NoFaults()) ==> s.NoFaults()
    ensures old(!s.usable) ==> !s.usable
    ensures old(s.usable && s.aborted) ==> InAborted(s) && ids == []
    ensures old(s.Live()) ==> InStep(s, t, keys, |keys|, now, ids, seen, script)
  {
    ids, seen := [], {};
    for k := 0 to |batch|
      invariant |old(s.work.docs)| <= |s.work.docs|
      invariant old(s.NoFaults()) ==> s.NoFaults()
      invariant old(!s.usable) ==> !s.usable
      invariant old(s.usable && s.aborted) ==> InAborted(s) && ids == []
      invariant old(s.Live()) ==> InStep(s, t, keys, k, now, ids, seen, script)
    {
      ids, seen := TakeTurnAt(s, e, batch, k, now, ids, seen, t, keys, script);
    }
  }

  /**
    Diff the batch against the table and commit all of it or nothing. How it ends depends on the first
    operation to fail: after a look-up the server discards the batch although documents are returned.
   */
  method PrepareForIndexing(s: Session, e: Tools, batch: seq<ConnectorDocument>, now: int)
    returns (ids: seq<int>, ghost end: Ending)
    requires s.Valid() && s.Clean()
    modifies s`faults, s`usable, s`aborted, s`flushed, s`work, s`committed
    ensures s.Valid() && s.Clean()
    ensures end.Stored? ==>
      var p := Prepare(old(s.committed.docs), KeyAll(e, batch), |KeyAll(e, batch)|, now);
      p.Some? && ids == p.value.ids && s.committed == old(s.committed).(docs := p.value.docs)
    ensures !end.Stored? ==> s.committed == old(s.committed)
    ensures old(s.Live()) ==> end == EndOf(old(s.committed.docs), KeyAll(e, batch), now, old(s.faults))
    ensures old(s.Live()) ==> ids == IdsOf(old(s.committed.docs), KeyAll(e, batch), now, old(s.faults))
    ensures old(s.usable && s.aborted) ==> end == Ending.Discarded && ids == []
    ensures old(!s.usable) ==> end == Ending.RolledBack && ids == []
    ensures end.RolledBack? ==> ids == []
    ensures old(s.NoFaults() && s.Live()) ==> s.Live() && !end.Discarded?
    ensures old(s.NoFaults() && s.Live()) ==>
      (end.Stored? <==> Prepare(old(s.committed.docs), KeyAll(e, batch), |KeyAll(e, batch)|, now).Some?)
    ensures Sound(e) && Tidy(old(s.committed)) ==> KeepsRows(e, old(s.committed), s.committed)
  {
    ghost var t, keys, script := s.committed, KeyAll(e, batch), s.faults;
    var seen;
    ids, seen := TakeTurns(s, e, batch, now, t, keys, script);
    ids, end := CommitPrepared(s, keys, now, ids, seen, t, script);
    StoredKeepsRows(e, t, batch, now, s.committed, end);
  }

  lemma StoredKeepsRows(e: Tools, t: Tables, batch: seq<ConnectorDocument>, now: int, t': Tables, end: Ending)
    requires end.Stored? ==>
      Prepare(t.docs, KeyAll(e, batch), |KeyAll(e, batch)|, now).Some?
      && t' == t.(docs := Prepare(t.docs, KeyAll(e, batch), |KeyAll(e, batch)|, now).value.docs)
    requires !end.Stored? ==> t' == t
    ensures Sound(e) && Tidy(t) ==> KeepsRows(e, t, t')
  {
    if end.Stored? && Sound(e) && Tidy(t) {
      CommittedPrepareIsARun(e, t, batch, now);
      RunKeepsRows(e, t, [Prepared(batch, now)]);
    }
  }

  /** One turn by its number. */
  method TakeTurnAt(s: Session, e: Tools, batch: seq<ConnectorDocument>, k: nat, now: int, ids: seq<int>,
                    seen: set<string>, ghost t: Tables, ghost keys: seq<Keyed>, ghost script: Script)
    returns (ids': seq<int>, seen': set<string>)
    requires keys == KeyAll(e, batch) && k < |batch|
    modifies s`faults, s`usable, s`aborted, s`flushed, s`work
    ensures |old(s.work.docs)| <= |s.work.docs|
    ensures old(!s.usable) ==> !s.usable
    ensures old(InAborted(s)) ==> InAborted(s) && ids' == ids && s.work == old(s.work)
    ensures old(s.NoFaults()) ==> s.NoFaults()
    ensures old(InStep(s, t, keys, k, now, ids, seen, script)) ==> InStep(s, t, keys, k + 1, now, ids', seen', script)
  {
    KeyAllAt(e, batch, k);
    MoreOps(t.docs, keys, k, now);
    ids', seen' := TakeTurn(s, e, batch[k], now, ids, seen, OpsOf(t.docs, keys, k, now), t,
                            PlanAt(t.docs, keys, k, now), FlushedAt(t.docs, keys, k, now), script);
  }

  /** The commit and its handlers. */
  method CommitPrepared(s: Session, ghost keys: seq<Keyed>, now: int, ids: seq<int>, ghost seen: set<string>,
                        ghost t: Tables, ghost script: Script)
    returns (ids': seq<int>, ghost end: Ending)
    requires Unique(t.docs) && s.committed == t && |t.docs| <= |s.work.docs|
    requires !s.usable || (InAborted(s) && ids == []) || InStep(s, t, keys, |keys|, now, ids, seen, script)
    modifies s`faults, s`usable, s`aborted, s`flushed, s`work, s`committed
    ensures s.Clean() && |s.committed.docs| <= |s.work.docs|
    ensures end.Stored? ==>
      var p := Prepare(t.docs, keys, |keys|, now);
      p.Some? && ids' == p.value.ids && s.committed == t.(docs := p.value.docs)
    ensures !end.Stored? ==> s.committed == t
    ensures old(InStep(s, t, keys, |keys|, now, ids, seen, script)) ==>
      end == EndOf(t.docs, keys, now, script) && ids' == IdsOf(t.docs, keys, now, script)
    ensures old(InStep(s, t, keys, |keys|, now, ids, seen, script)) && AllDone(script) ==>
      !end.Discarded? && (end.Stored? <==> Prepare(t.docs, keys, |keys|, now).Some?)
    ensures old(InAborted(s)) ==> end == Ending.Discarded && ids' == ids
    ensures old(!s.usable) ==> end == Ending.RolledBack && ids' == []
    ensures end.RolledBack? ==> ids' == []
    ensures old(s.NoFaults()) ==> s.NoFaults() && s.Live()
  {
    ids', end := ids, Ending.RolledBack;
    EndAfterTurns(t.docs, keys, now, script);
    if EndOf(t.docs, keys, now, script) == Ending.Stored {
      StoredIsPrepared(t.docs, keys, now, script);
    }
    if AllDone(script) {
      CleanScriptEnds(t.docs, keys, now, script);
    }
    ghost var aborted := s.aborted;
    var o := s.Commit();
    if o.Done? {
      end := if aborted then Ending.Discarded else Ending.Stored;
      return;
    }
    o := s.Rollback();
    ids' := [];
  }

  // ---------- attach_sections_and_chunks ----------

  /** The temporary ids of the first `k` sections, mapped to their database ids. */
  ghost predicate MapsTo(ids: map<int, int>, parsed: seq<ParsedSection>, k: nat, base: int)
    requires k <= |parsed|
  {
    forall j :: 0 <= j < k ==> parsed[j].tempId in ids && ids[parsed[j].tempId] == base + j
  }

  function LookUp(ids: map<int, int>, link: Option<int>): Option<int> {
    if link.Some? && link.value in ids then Some(ids[link.value]) else None
  }

  lemma LinkIsMapped(ids: map<int, int>, parsed: seq<ParsedSection>, levels: seq<int>, k: nat, base: int)
    requires k < |parsed| == |levels| && Linked(parsed, levels, k) && MapsTo(ids, parsed, k, base)
    ensures LookUp(ids, parsed[k].parentTempId) == ParentId(levels, k, base)
  {
    match Parent(levels, k)
    case None =>
    case Some(p) => assert ids[parsed[p].tempId] == base + p;
  }

  /** Every parent link the parser emits is already mapped when it is read. */
  lemma ParentIsMapped(ids: map<int, int>, parsed: seq<ParsedSection>, o: seq<Content>, k: nat, base: int)
    requires Represents(parsed, o) && k < |o| && MapsTo(ids, parsed, k, base)
    ensures LookUp(ids, parsed[k].parentTempId) == ParentId(Levels(o), k, base)
  {
    assert Linked(parsed, Levels(o), k);
    LinkIsMapped(ids, parsed, Levels(o), k, base);
  }

  lemma MapGrows(ids: map<int, int>, parsed: seq<ParsedSection>, o: seq<Content>, k: nat, base: int)
    requires Represents(parsed, o) && k < |o| && MapsTo(ids, parsed, k, base)
    ensures MapsTo(ids[parsed[k].tempId := base + k], parsed, k + 1, base)
  {
  }

  /** The table of chunk texts to vectors that `index` builds. */
  ghost predicate Embeds(e: Tools, vectors: map<string, Vector>, o: seq<Content>) {
    forall k, m :: 0 <= k < |o| && 0 <= m < |o[k].chunks| ==>
      o[k].chunks[m].content in vectors && vectors[o[k].chunks[m].content] == e.Embed(o[k].chunks[m].content)
  }

  lemma EmbedsOne(e: Tools, vectors: map<string, Vector>, parsed: seq<ParsedSection>, o: seq<Content>, k: nat)
    requires Represents(parsed, o) && k < |o| && Embeds(e, vectors, o)
    ensures Embeds(e, vectors, [o[k]]) && parsed[k].content == o[k]
  {
    forall m | 0 <= m < |o[k].chunks|
      ensures o[k].chunks[m].content in vectors && vectors[o[k].chunks[m].content] == e.Embed(o[k].chunks[m].content)
    {
    }
  }

  /** The sections of `d` replaced by the first `k` sections of `o`, with their chunks inserted. */
  function Attached(e: Tools, t: Tables, d: int, o: seq<Content>, k: nat, base: int): Tables
    requires k <= |o|
  {
    var c := DeleteSections(t, d);
    c.(sections := c.sections + StoredSections(e, d, o, k, base), chunks := c.chunks + StoredChunks(e, d, o, k, base))
  }

  lemma AttachedStep(e: Tools, t: Tables, d: int, o: seq<Content>, k: nat, base: int, w: Tables, added: seq<ChunkRow>)
    requires k < |o| && w.(chunks := w.chunks + added) == Attached(e, t, d, o, k, base)
    ensures w.(sections := w.sections + [StoredSection(e, d, o, k, base)],
               chunks := w.chunks + (added + StoredChunksOf(e, d, o[k], base + k, |o[k].chunks|)))
         == Attached(e, t, d, o, k + 1, base)
  {
    var c := DeleteSections(t, d);
    var rows := StoredChunksOf(e, d, o[k], base + k, |o[k].chunks|);
    assert w.chunks + (added + rows) == (w.chunks + added) + rows;
    assert StoredChunks(e, d, o, k + 1, base) == StoredChunks(e, d, o, k, base) + rows;
    assert c.chunks + (StoredChunks(e, d, o, k, base) + rows) == (c.chunks + StoredChunks(e, d, o, k, base)) + rows;
    assert StoredSections(e, d, o, k + 1, base) == StoredSections(e, d, o, k, base) + [StoredSection(e, d, o, k, base)];
  }

  lemma StoredSectionIsRow(e: Tools, d: int, parsed: seq<ParsedSection>, o: seq<Content>, k: nat, base: int)
    requires Represents(parsed, o) && k < |o|
    ensures SectionRowOf(e, d, parsed[k], ParentId(Levels(o), k, base), base + k) == StoredSection(e, d, o, k, base)
  {
  }

  /** The chunk rows of one section. */
  method BuildChunks(e: Tools, d: int, section: Content, id: int, vectors: map<string, Vector>)
    returns (rows: seq<ChunkRow>)
    requires Embeds(e, vectors, [section])
    ensures rows == StoredChunksOf(e, d, section, id, |section.chunks|)
  {
    rows := [];
    for m := 0 to |section.chunks|
      invariant rows == StoredChunksOf(e, d, section, id, m)
    {
      var chunk := section.chunks[m];
      assert [section][0].chunks[m] == chunk;
      var embedding := if chunk.content in vectors then Some(vectors[chunk.content]) else None;
      rows := rows + [ChunkRow(d, chunk.content, embedding, Some(id), chunk.order, section.text.heading,
                               section.text.level, section.text.kind, chunk.digest)];
    }
  }

  /** Insert one section row and flush it, to learn its id. */
  method InsertSection(s: Session, e: Tools, d: int, section: ParsedSection, parent: Option<int>)
    returns (r: Outcome, id: int)
    requires s.Live()
    modifies s`faults, s`usable, s`aborted, s`flushed, s`work, s`nextId
    ensures id == old(s.nextId) && s.nextId == id + 1
    ensures s.work == old(s.work).(sections := old(s.work.sections) + [SectionRowOf(e, d, section, parent, id)])
    ensures if r.Done? then s.Live() && Unique(s.work.docs) else !s.Live()
    ensures old(s.NoFaults()) ==> s.NoFaults() && (Unique(s.work.docs) ==> r.Done?)
  {
    id := s.nextId;
    s.nextId := id + 1;
    s.work := s.work.(sections := s.work.sections + [SectionRowOf(e, d, section, parent, id)]);
    assert |s.work.sections| == |old(s.work.sections)| + 1;
    r := s.Flush();
  }

  function SectionRowOf(e: Tools, d: int, section: ParsedSection, parent: Option<int>, id: int): SectionRow {
    var text := section.content.text;
    SectionRow(id, d, e.Strip(e.Lower(text.heading)), parent, section.order, text)
  }

  /** One turn of the section loop. */
  method AttachSection(s: Session, e: Tools, d: int, parsed: seq<ParsedSection>, k: nat, tempToDb: map<int, int>,
                       vectors: map<string, Vector>, ghost o: seq<Content>, ghost base: int)
    returns (r: Outcome, tempToDb': map<int, int>, rows: seq<ChunkRow>)
    requires s.Live() && Represents(parsed, o) && Embeds(e, vectors, o) && k < |o|
    requires MapsTo(tempToDb, parsed, k, base) && s.nextId == base + k
    modifies s`faults, s`usable, s`aborted, s`flushed, s`work, s`nextId
    ensures s.nextId == base + k + 1 && MapsTo(tempToDb', parsed, k + 1, base)
    ensures s.work == old(s.work).(sections := old(s.work.sections) + [StoredSection(e, d, o, k, base)])
    ensures rows == StoredChunksOf(e, d, o[k], base + k, |o[k].chunks|)
    ensures if r.Done? then s.Live() && Unique(s.work.docs) else !s.Live()
    ensures old(s.NoFaults()) ==> s.NoFaults() && (Unique(s.work.docs) ==> r.Done?)
  {
    ParentIsMapped(tempToDb, parsed, o, k, base);
    StoredSectionIsRow(e, d, parsed, o, k, base);
    EmbedsOne(e, vectors, parsed, o, k);
    MapGrows(tempToDb, parsed, o, k, base);
    var parent := LookUp(tempToDb, parsed[k].parentTempId);
    var id;
    r, id := InsertSection(s, e, d, parsed[k], parent);
    tempToDb' := tempToDb[parsed[k].tempId := id];
    rows := BuildChunks(e, d, parsed[k].content, id, vectors);
  }

  /** Replace the sections of `d` and insert its chunks, inside the caller's transaction. */
  method AttachSectionsAndChunks(s: Session, e: Tools, d: int, parsed: seq<ParsedSection>,
                                 vectors: map<string, Vector>, ghost o: seq<Content>, ghost t: Tables, ghost base: int)
    returns (r: Outcome)
    requires Represents(parsed, o) && Embeds(e, vectors, o) && s.work == t && s.nextId == base
    modifies s`faults, s`usable, s`aborted, s`flushed, s`work, s`nextId
    ensures s.work.docs == t.docs && s.nextId >= base
    ensures if r.Done? then old(s.Live()) && s.Live() && s.nextId == base + |o| else !s.Live()
    ensures r.Done? ==> s.work == Attached(e, t, d, o, |o|, base)
    ensures old(s.NoFaults()) ==> s.NoFaults() && (old(s.Live()) && Unique(t.docs) ==> r.Done?)
  {
    r := s.Execute();
    if r.Raised? { return; }
    s.work := DeleteSections(s.work, d);
    var tempToDb: map<int, int> := map[];
    var chunksToAdd: seq<ChunkRow> := [];
    for k := 0 to |parsed|
      invariant r.Done? && s.Live() && s.nextId == base + k && s.work.docs == t.docs
      invariant old(s.NoFaults()) ==> s.NoFaults()
      invariant MapsTo(tempToDb, parsed, k, base)
      invariant s.work.(chunks := s.work.chunks + chunksToAdd) == Attached(e, t, d, o, k, base)
    {
      var rows;
      AttachedStep(e, t, d, o, k, base, s.work, chunksToAdd);
      r, tempToDb, rows := AttachSection(s, e, d, parsed, k, tempToDb, vectors, o, base);
      if r.Raised? { return; }
      chunksToAdd := chunksToAdd + rows;
    }
    s.work := s.work.(chunks := s.work.chunks + chunksToAdd);
  }

  // ---------- index ----------

  /** All chunk texts, in order. */
  method CollectTexts(parsed: seq<ParsedSection>) returns (texts: seq<string>)
    ensures forall k, m :: 0 <= k < |parsed| && 0 <= m < |parsed[k].content.chunks| ==>
      parsed[k].content.chunks[m].content in texts
  {
    texts := [];
    for i := 0 to |parsed|
      invariant forall k, m :: 0 <= k < i && 0 <= m < |parsed[k].content.chunks| ==>
        parsed[k].content.chunks[m].content in texts
    {
      var chunks := parsed[i].content.chunks;
      ghost var before := texts;
      for j := 0 to |chunks|
        invariant forall x :: x in before ==> x in texts
        invariant forall m :: 0 <= m < j ==> chunks[m].content in texts
      {
        texts := texts + [chunks[j].content];
      }
    }
  }

  /** `embed_texts`: one vector per text. */
  function EmbedTexts(e: Tools, texts: seq<string>): (v: seq<Vector>)
    ensures |v| == |texts|
    ensures forall k :: 0 <= k < |texts| ==> v[k] == e.Embed(texts[k])
  {
    if texts == [] then [] else EmbedTexts(e, texts[..|texts| - 1]) + [e.Embed(texts[|texts| - 1])]
  }

  /** `dict(zip(texts, vectors))`: texts that repeat share a vector. */
  method ZipToMap(e: Tools, texts: seq<string>, vectors: seq<Vector>) returns (table: map<string, Vector>)
    requires |vectors| == |texts| && forall k :: 0 <= k < |texts| ==> vectors[k] == e.Embed(texts[k])
    ensures forall x :: x in texts ==> x in table && table[x] == e.Embed(x)
  {
    table := map[];
    for i := 0 to |texts|
      invariant forall k :: 0 <= k < i ==> texts[k] in table
      invariant forall x :: x in table ==> table[x] == e.Embed(x)
    {
      table := table[texts[i] := vectors[i]];
    }
  }

  /** Best-effort bookkeeping after a failure; nothing escapes. */
  method RollbackAndPersistFailure(s: Session, d: int, message: string, now: int) returns (ghost persisted: bool)
    requires s.Valid() && 0 <= d
    modifies s`faults, s`usable, s`aborted, s`flushed, s`work, s`committed
    ensures s.Valid() && s.Clean()
    ensures persisted ==> d < |old(s.committed.docs)|
    ensures s.committed == if persisted
      then old(s.committed).(docs := old(s.committed.docs)[d := FailedRow(old(s.committed.docs)[d], message, now)])
      else old(s.committed)
    ensures s.Live() && d < |old(s.committed.docs)| ==> persisted
    ensures old(s.NoFaults()) ==> s.NoFaults() && (d < |old(s.committed.docs)| ==> persisted)
  {
    persisted := false;
    var o := s.Rollback();
    if o.Raised? { return; }
    o := s.Execute();  // refresh
    if o.Raised? || d >= |s.work.docs| { return; }  // no row to refresh from
    SameHashesKeepUnique(s.committed.docs, d, FailedRow(s.committed.docs[d], message, now));
    s.work := s.work.(docs := s.work.docs[d := FailedRow(s.work.docs[d], message, now)]);
    o := s.Commit();
    persisted := o.Done?;
  }

  lemma TextsEmbed(e: Tools, parsed: seq<ParsedSection>, o: seq<Content>, texts: seq<string>,
                   table: map<string, Vector>)
    requires Represents(parsed, o)
    requires forall k, m :: 0 <= k < |parsed| && 0 <= m < |parsed[k].content.chunks| ==>
      parsed[k].content.chunks[m].content in texts
    requires forall x :: x in texts ==> x in table && table[x] == e.Embed(x)
    ensures Embeds(e, table, o)
  {
    forall k, m | 0 <= k < |o| && 0 <= m < |o[k].chunks|
      ensures o[k].chunks[m].content in table && table[o[k].chunks[m].content] == e.Embed(o[k].chunks[m].content)
    {
      assert parsed[k].content == o[k];
    }
  }

  /** The vectors `index` looks chunk embeddings up in; the summary is embedded in the same batch. */
  method EmbedAll(e: Tools, content: string, parsed: seq<ParsedSection>, ghost o: seq<Content>)
    returns (summaryVector: Vector, table: map<string, Vector>)
    requires Represents(parsed, o)
    ensures summaryVector == e.Embed(content) && Embeds(e, table, o)
  {
    var texts := CollectTexts(parsed);
    var vectors := EmbedTexts(e, [content] + texts);
    summaryVector := vectors[0];
    forall k | 0 <= k < |texts|
      ensures vectors[1..][k] == e.Embed(texts[k])
    {
      assert ([content] + texts)[k + 1] == texts[k];
    }
    table := ZipToMap(e, texts, vectors[1..]);
    TextsEmbed(e, parsed, o, texts, table);
  }

  /** Chunks deleted first and sections replaced later is the whole replacement, whatever the document row. */
  lemma DeleteThenAttach(e: Tools, t: Tables, docs: seq<Row>, d: int, o: seq<Content>, base: int)
    ensures Attached(e, t.(docs := docs, chunks := DeleteChunks(t.chunks, d)), d, o, |o|, base)
         == Replaced(e, t, d, o, base).(docs := docs)
  {
  }

  function EmbeddedRow(e: Tools, row: Row, content: string): Row {
    row.(content := content, embedding := Some(e.Embed(content)))
  }

  /** The first statements of the second transaction: old chunks deleted, text parsed and embedded, row filled in. */
  method StageContent(s: Session, e: Tools, d: int, md: string, content: string, tempBase: int, ghost t: Tables)
    returns (r: Outcome, sections: seq<ParsedSection>, table: map<string, Vector>)
    requires Sound(e) && s.Live() && 0 <= d < |t.docs| && s.work == t
    modifies s`faults, s`usable, s`aborted, s`flushed, s`work
    ensures |s.work.docs| == |t.docs|
    ensures r.Done? ==> s.Live() && Represents(sections, Outline(e, md)) && Embeds(e, table, Outline(e, md))
    ensures r.Done? ==> s.work == t.(docs := t.docs[d := EmbeddedRow(e, t.docs[d], content)],
                                     chunks := DeleteChunks(t.chunks, d))
    ensures old(s.NoFaults()) ==> s.NoFaults() && (Unique(t.docs) ==> r.Done?)
  {
    sections, table := [], map[];
    :- s.Execute();
    s.work := s.work.(chunks := DeleteChunks(s.work.chunks, d));
    :- s.Attempt();  // the chunker
    sections := ParseMarkdownIntoSections(e, md, tempBase);
    :- s.Attempt();  // the embedder
    var summaryVector;
    summaryVector, table := EmbedAll(e, content, sections, Outline(e, md));
    var row := s.work.docs[d].(content := content, embedding := Some(summaryVector));
    s.work := s.work.(docs := s.work.docs[d := row]);
    r := Done;
  }

  /** All statements of the second transaction: everything derived from the text is replaced in it. */
  method StageDerived(s: Session, e: Tools, d: int, md: string, content: string, tempBase: int, ghost t: Tables,
                      ghost base: int)
    returns (r: Outcome)
    requires Sound(e) && s.Live() && Unique(t.docs) && 0 <= d < |t.docs|
    requires s.work == t && s.nextId == base
    modifies s`faults, s`usable, s`aborted, s`flushed, s`work, s`nextId
    ensures |s.work.docs| == |t.docs| && s.nextId >= base
    ensures r.Done? ==> s.Live() && s.nextId == base + |Outline(e, md)|
    ensures r.Done? ==> s.work == Replaced(e, t, d, Outline(e, md), base)
                                    .(docs := t.docs[d := EmbeddedRow(e, t.docs[d], content)])
    ensures old(s.NoFaults()) ==> s.NoFaults() && r.Done?
  {
    var sections, table;
    r, sections, table := StageContent(s, e, d, md, content, tempBase, t);
    if r.Raised? { return; }
    ghost var o, staged := Outline(e, md), s.work;
    SameHashesKeepUnique(t.docs, d, EmbeddedRow(e, t.docs[d], content));
    DeleteThenAttach(e, t, staged.docs, d, o, base);
    r := AttachSectionsAndChunks(s, e, d, sections, table, o, staged, base);
  }

  function MarkedReady(t: Tables, d: int, now: int): Tables
    requires 0 <= d < |t.docs|
  {
    t.(docs := t.docs[d := t.docs[d].(updatedAt := now, status := Ready)])
  }

  /** What the last commit of `index` stores: still unique, and higher section ids are unused. */
  lemma ReadyToCommit(e: Tools, t: Tables, d: int, o: seq<Content>, content: string, base: int, now: int,
                      staged: Tables)
    requires Unique(t.docs) && Unused(t, base) && 0 <= d < |t.docs|
    requires staged == Replaced(e, t, d, o, base).(docs := t.docs[d := EmbeddedRow(e, t.docs[d], content)])
    ensures MarkedReady(staged, d, now)
         == Replaced(e, t, d, o, base).(docs := t.docs[d := FinishedRow(e, t.docs[d], content, now)])
    ensures Unique(MarkedReady(staged, d, now).docs) && Unused(MarkedReady(staged, d, now), base + |o|)
  {
    SameHashesKeepUnique(t.docs, d, FinishedRow(e, t.docs[d], content, now));
    ReplacedKeepsUnused(e, t, d, o, base);
    assert MarkedReady(staged, d, now).docs == t.docs[d := FinishedRow(e, t.docs[d], content, now)];
  }

  lemma UnusedAbove(t: Tables, a: int, b: int)
    requires Unused(t, a) && a <= b
    ensures Unused(t, b)
  {
  }

  method CommitReady(s: Session, d: int, now: int, ghost staged: Tables) returns (r: Outcome)
    requires s.Live() && s.work == staged && 0 <= d < |staged.docs|
    modifies s`faults, s`usable, s`aborted, s`flushed, s`work, s`committed
    ensures r.Done? ==> s.Live() && s.flushed == s.committed == s.work && Unique(s.work.docs)
    ensures r.Done? ==> s.work == MarkedReady(staged, d, now)
    ensures r.Raised? ==> s.committed == old(s.committed) && |s.work.docs| == |staged.docs|
    ensures old(s.NoFaults()) ==> s.NoFaults() && (Unique(MarkedReady(staged, d, now).docs) ==> r.Done?)
  {
    var row := s.work.docs[d].(updatedAt := now, status := Ready);
    s.work := s.work.(docs := s.work.docs[d := row]);
    r := s.Commit();
  }

  /** Stage everything derived from the text, mark the row ready, and commit. */
  method CommitDerived(s: Session, e: Tools, d: int, md: string, content: string, tempBase: int, now: int,
                       ghost t: Tables, ghost base: int)
    returns (r: Outcome)
    requires Sound(e) && s.Live() && 0 <= d < |t.docs| && Unique(t.docs) && Unused(t, base)
    requires s.work == t == s.committed && s.nextId == base
    modifies s`faults, s`usable, s`aborted, s`flushed, s`work, s`nextId, s`committed
    ensures |s.work.docs| == |t.docs| && s.nextId >= base
    ensures r.Done? ==> s.Live() && s.work == s.flushed == s.committed
    ensures r.Done? ==> Unique(s.committed.docs) && Unused(s.committed, s.nextId)
    ensures r.Done? ==> s.committed == Replaced(e, t, d, Outline(e, md), base)
                                         .(docs := t.docs[d := FinishedRow(e, t.docs[d], content, now)])
    ensures r.Raised? ==> s.committed == t
    ensures old(s.NoFaults()) ==> s.NoFaults() && r.Done?
  {
    ghost var o := Outline(e, md);
    ghost var staged := Replaced(e, t, d, o, base).(docs := t.docs[d := EmbeddedRow(e, t.docs[d], content)]);
    ReadyToCommit(e, t, d, o, content, base, now, staged);
    :- StageDerived(s, e, d, md, content, tempBase, t, base);
    r := CommitReady(s, d, now, staged);
  }

  /** The second transaction of `index`: everything derived from the text is replaced, or nothing is. */
  method ReplaceDerived(s: Session, e: Tools, d: int, doc: ConnectorDocument, llm: Option<string>, tempBase: int,
                        now: int,
                        ghost t: Tables, ghost base: int)
    returns (r: Outcome)
    requires Sound(e) && s.Live() && 0 <= d < |t.docs| && Unique(t.docs) && Unused(t, base)
    requires s.work == t == s.committed && s.nextId == base
    modifies s`faults, s`usable, s`aborted, s`flushed, s`work, s`nextId, s`committed
    ensures s.Valid()
    ensures r.Done? ==> s.Live() && s.work == s.flushed == s.committed
    ensures r.Done? ==> s.committed == Replaced(e, t, d, Outline(e, doc.markdown), base)
                                         .(docs := t.docs[d := FinishedRow(e, t.docs[d], ChosenContent(doc, llm), now)])
    ensures r.Raised? ==> s.committed == t
    ensures old(s.NoFaults()) ==> s.NoFaults() && r.Done?
  {
    if doc.shouldSummarize && llm.Some? {
      :- s.Attempt();  // the summarizer
    }
    r := CommitDerived(s, e, d, doc.markdown, ChosenContent(doc, llm), tempBase, now, t, base);
    UnusedAbove(t, base, s.nextId);
  }

  /**
    What a caller of `index` has changed but not flushed: nothing, when the row has the document's content
    hash, or the content hash alone, when the document was rebuilt from the row. There may be no such row:
    a prepare whose batch the server discards has returned documents all the same.
   */
  ghost predicate Handed(s: Session, e: Tools, d: int, doc: ConnectorDocument)
    reads s
  {
    && 0 <= d
    && (d < |s.committed.docs| ==>
          s.committed.docs[d].contentHash == ContentHash(e, doc) || Rebuilt(s.committed.docs[d], doc))
    && (s.usable ==> s.flushed == s.committed)
    && (s.usable ==> s.work == if d < |s.committed.docs| then Rehashed(e, s.committed, d, doc) else s.committed)
  }

  function Rehashed(e: Tools, t: Tables, d: int, doc: ConnectorDocument): Tables
    requires 0 <= d < |t.docs|
  {
    t.(docs := t.docs[d := t.docs[d].(contentHash := ContentHash(e, doc))])
  }

  /** The first commit of `index`, as an event. */
  function StartOf(e: Tools, t: Tables, d: int, doc: ConnectorDocument): Event
    requires 0 <= d < |t.docs|
  {
    if t.docs[d].contentHash == ContentHash(e, doc) then Started(d) else Restarted(d, doc)
  }

  lemma StartIsPossible(e: Tools, t: Tables, d: int, doc: ConnectorDocument, t1: Tables)
    requires Sound(e) && 0 <= d < |t.docs| && (t.docs[d].contentHash == ContentHash(e, doc) || Rebuilt(t.docs[d], doc))
    requires t1 == t.(docs := RestartedDocs(e, t, d, doc)) && Unique(t1.docs)
    ensures Possible(e, t, StartOf(e, t, d, doc)) && Apply(e, t, StartOf(e, t, d, doc)) == t1
    ensures IsRun(e, t, [StartOf(e, t, d, doc)]) && Replay(e, t, [StartOf(e, t, d, doc)]) == t1
  {
    RunOfOne(e, t, StartOf(e, t, d, doc));
  }

  /** The first commit: the row is processing. Without the row its update fails. */
  method CommitStart(s: Session, e: Tools, d: int, doc: ConnectorDocument) returns (r: Outcome)
    requires s.Valid() && Handed(s, e, d, doc)
    modifies s`faults, s`usable, s`aborted, s`flushed, s`work, s`committed
    ensures |s.committed.docs| == |old(s.committed.docs)| <= |s.work.docs| && Unused(s.committed, s.nextId)
    ensures r.Done? ==> d < |s.committed.docs| && s.Live() && s.work == s.committed && Unique(s.committed.docs)
    ensures r.Done? ==> s.committed == old(s.committed).(docs := RestartedDocs(e, old(s.committed), d, doc))
    ensures r.Raised? ==> s.committed == old(s.committed)
    ensures old(s.NoFaults()) ==> s.NoFaults()
    ensures old(s.NoFaults() && s.Live()) && Unique(old(s.work.docs)) && d < |old(s.committed.docs)| ==> r.Done?
  {
    ghost var t := s.committed;
    if d >= |s.work.docs| {
      r := s.FlushMissing();
      return;
    }
    if s.usable && Unique(s.work.docs) {
      SameHashesKeepUnique(s.work.docs, d, s.work.docs[d].(status := Processing));
    }
    var row := s.work.docs[d].(status := Processing);
    s.work := s.work.(docs := s.work.docs[d := row]);
    assert s.usable ==> s.work.docs == RestartedDocs(e, t, d, doc);
    r := s.Commit();
  }

  lemma ReplacedAfterStart(e: Tools, t: Tables, t1: Tables, d: int, doc: ConnectorDocument, content: string, base: int,
                           now: int)
    requires Sound(e) && 0 <= d < |t.docs| && (t.docs[d].contentHash == ContentHash(e, doc) || Rebuilt(t.docs[d], doc))
    requires t1 == t.(docs := RestartedDocs(e, t, d, doc)) && Unique(t1.docs) && Unused(t, base)
    ensures var evs := [StartOf(e, t, d, doc), Finished(d, doc, content, base, now)];
      && IsRun(e, t, evs)
      && Replay(e, t, evs) == Replaced(e, t1, d, Outline(e, doc.markdown), base)
                                .(docs := t1.docs[d := FinishedRow(e, t1.docs[d], content, now)])
  {
    StartIsPossible(e, t, d, doc, t1);
    RunOfTwo(e, t, StartOf(e, t, d, doc), Finished(d, doc, content, base, now));
  }

  /** The try block; `evs` are the commits made. */
  method TryIndex(s: Session, e: Tools, d: int, doc: ConnectorDocument, llm: Option<string>, tempBase: int, now: int)
    returns (r: Outcome, ghost evs: seq<Event>)
    requires Sound(e) && s.Valid() && Handed(s, e, d, doc)
    modifies s
    ensures s.Valid()
    ensures IsRun(e, old(s.committed), evs) && s.committed == Replay(e, old(s.committed), evs)
    ensures if r.Done?
      then
        && s.Live() && s.Clean() && d < |old(s.committed.docs)|
        && evs == [StartOf(e, old(s.committed), d, doc), Finished(d, doc, ChosenContent(doc, llm), old(s.nextId), now)]
      else evs == [] || (d < |old(s.committed.docs)| && evs == [StartOf(e, old(s.committed), d, doc)])
    ensures old(s.NoFaults()) ==> s.NoFaults()
    ensures old(s.NoFaults() && s.Live()) && Unique(old(s.work.docs)) && d < |old(s.committed.docs)| ==> r.Done?
  {
    evs := [];
    ghost var t, base := s.committed, s.nextId;
    r := CommitStart(s, e, d, doc);
    if r.Raised? { return; }
    evs := [StartOf(e, t, d, doc)];
    ghost var t1 := s.committed;
    StartIsPossible(e, t, d, doc, t1);
    ReplacedAfterStart(e, t, t1, d, doc, ChosenContent(doc, llm), base, now);
    r := ReplaceDerived(s, e, d, doc, llm, tempBase, now, t1, base);
    if r.Raised? { return; }
    evs := [StartOf(e, t, d, doc), Finished(d, doc, ChosenContent(doc, llm), base, now)];
  }

  /** A failure recorded after the commits of the try block. */
  lemma GaveUpExtends(e: Tools, t: Tables, evs: seq<Event>, d: int, first: Event, message: string, now: int)
    requires Sound(e) && 0 <= d < |t.docs| && (evs == [] || evs == [first]) && (first.Started? || first.Restarted?)
    requires IsRun(e, t, evs)
    ensures IsRun(e, t, evs + [GaveUp(d, message, now)])
    ensures var t1 := Replay(e, t, evs);
      |t1.docs| == |t.docs| &&
      Replay(e, t, evs + [GaveUp(d, message, now)]) == t1.(docs := t1.docs[d := FailedRow(t1.docs[d], message, now)])
  {
    if evs == [] {
      RunOfOne(e, t, GaveUp(d, message, now));
    } else {
      RunOfOne(e, t, first);
      RunOfTwo(e, t, first, GaveUp(d, message, now));
      assert evs + [GaveUp(d, message, now)] == [first, GaveUp(d, message, now)];
    }
  }

  /** The try block and its handlers. */
  method TryIndexOrRecord(s: Session, e: Tools, d: int, doc: ConnectorDocument, llm: Option<string>, tempBase: int,
                          now: int)
    returns (ghost evs: seq<Event>)
    requires Sound(e) && s.Valid() && Handed(s, e, d, doc)
    modifies s
    ensures s.Valid() && s.Clean()
    ensures IsRun(e, old(s.committed), evs) && s.committed == Replay(e, old(s.committed), evs)
    ensures IndexEvents(evs, d, doc, llm, old(s.nextId), now)
    ensures d >= |old(s.committed.docs)| ==> evs == []
    ensures s.Live() && d < |old(s.committed.docs)| ==> Succeeded(evs) || (evs != [] && evs[|evs| - 1].GaveUp?)
    ensures old(s.NoFaults()) ==> s.NoFaults()
    ensures old(s.NoFaults() && s.Live()) && Unique(old(s.work.docs)) && d < |old(s.committed.docs)| ==>
      s.Live() && Succeeded(evs)
  {
    ghost var t := s.committed;
    var r;
    r, evs := TryIndex(s, e, d, doc, llm, tempBase, now);
    if r.Raised? {
      if d < |t.docs| {
        GaveUpExtends(e, t, evs, d, StartOf(e, t, d, doc), r.message, now);
      }
      ghost var persisted := RollbackAndPersistFailure(s, d, r.message, now);
      if persisted {
        evs := evs + [GaveUp(d, r.message, now)];
      }
    }
  }

  /**
    Index one document. The committed tables change by a run of at most two commits: a complete
    success, or a failure that leaves everything derived as it was. As long as the session is live,
    the outcome is recorded; a document without a row changes nothing.
   */
  method Index(s: Session, e: Tools, d: int, doc: ConnectorDocument, llm: Option<string>, tempBase: int, now: int)
    returns (ghost evs: seq<Event>)
    requires Sound(e) && s.Valid() && Handed(s, e, d, doc)
    modifies s
    ensures s.Valid() && s.Clean()
    ensures IsRun(e, old(s.committed), evs) && s.committed == Replay(e, old(s.committed), evs)
    ensures IndexEvents(evs, d, doc, llm, old(s.nextId), now)
    ensures d >= |old(s.committed.docs)| ==> evs == []
    ensures s.Live() && d < |old(s.committed.docs)| ==> Succeeded(evs) || (evs != [] && evs[|evs| - 1].GaveUp?)
    ensures old(s.NoFaults() && s.Live()) && Unique(old(s.work.docs)) && d < |old(s.committed.docs)| ==>
      s.NoFaults() && s.Live() && Succeeded(evs)
    ensures Tidy(old(s.committed)) ==> KeepsRows(e, old(s.committed), s.committed)
  {
    ghost var t := s.committed;
    evs := TryIndexOrRecord(s, e, d, doc, llm, tempBase, now);
    if Tidy(t) {
      RunKeepsRows(e, t, evs);
    }
    var refreshed := s.Execute();  // suppressed when it raises
  }

  // ---------- what both keep ----------

  /** A successful call makes the row right if it was honest, or rebuilt from a row of that name. */
  lemma SucceededIndexMakesRowOk(e: Tools, t: Tables, evs: seq<Event>, d: int, doc: ConnectorDocument,
                                 llm: Option<string>, base: int, now: int)
    requires Sound(e) && Tidy(t) && 0 <= d < |t.docs| && IsRun(e, t, evs)
    requires IndexEvents(evs, d, doc, llm, base, now) && Succeeded(evs)
    requires Honest(e, t.docs[d]) || (Named(e, t.docs[d]) && evs[0] == Restarted(d, doc))
    ensures |Replay(e, t, evs).docs| == |t.docs|
    ensures RowOk(e, Replay(e, t, evs), d) && Replay(e, t, evs).docs[d].status == Ready
  {
    var t1, last := Apply(e, t, evs[0]), evs[1..];
    EventKeepsTidy(e, t, evs[0]);
    if evs[0] == Started(d) {
      HonestStays(e, t.docs[d], t1.docs[d]);
    } else {
      RestartedIsHonest(e, t.docs[d], doc);
    }
    assert last[0] == evs[1] && Enters(e, t1, last[0], d);
    SucceededIndexReplacesOne(e, t, evs, d, doc, llm, base, now, d);
    EveryRunKeepsRows(e, t1, last, d);
  }
}
