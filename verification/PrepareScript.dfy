/** Which operations a prepare performs, and how it ends when some of them fail. */
module PrepareScript {
  import opened Common
  import opened Tables
  import opened Preparing
  import opened PrepareTheorems

  /** The outcome of something that may raise. */
  datatype Outcome = Done | Raised(message: string)
  {
    predicate IsFailure() { Raised? }
    function PropagateFailure(): Outcome requires Raised? { this }
  }

  /** A script of failures: each operation takes the next entry, and succeeds when there is none. */
  type Script = seq<Outcome>

  function Entry(script: Script, i: nat): Outcome {
    if i < |script| then script[i] else Done
  }

  function Rest(script: Script, n: nat): Script {
    if n < |script| then script[n..] else []
  }

  /** An operation of a prepare: a flush, which may clash, a look-up with the ids collected before it, the commit. */
  datatype Op = Flush(clash: bool) | Statement(ids: seq<int>) | Commit

  predicate Fails(op: Op, o: Outcome) {
    o.Raised? || op == Flush(true)
  }

  /** The first operation to fail, or the number of operations. */
  function FirstFailure(ops: seq<Op>, script: Script): (i: nat)
    ensures i <= |ops|
  {
    if ops == [] || Fails(ops[0], Entry(script, 0)) then 0 else 1 + FirstFailure(ops[1..], Rest(script, 1))
  }

  lemma RestEntries(script: Script, n: nat, m: nat)
    ensures Rest(Rest(script, n), m) == Rest(script, n + m)
    ensures Entry(Rest(script, n), m) == Entry(script, n + m)
  {
  }

  /** What "first to fail" means. */
  lemma {:induction false} FirstFailureMeans(ops: seq<Op>, script: Script, i: nat)
    requires i <= |ops|
    ensures FirstFailure(ops, script) == i <==>
      (i < |ops| ==> Fails(ops[i], Entry(script, i))) && forall j :: 0 <= j < i ==> !Fails(ops[j], Entry(script, j))
  {
    if ops != [] && !Fails(ops[0], Entry(script, 0)) {
      forall j: nat | j < |ops|
        ensures Entry(Rest(script, 1), j) == Entry(script, 1 + j)
      {
        RestEntries(script, 1, j);
      }
      if i > 0 {
        FirstFailureMeans(ops[1..], Rest(script, 1), i - 1);
        assert forall j :: 0 <= j < i - 1 ==> ops[1..][j] == ops[j + 1];
        assert forall j :: 1 <= j < i ==> ops[j] == ops[1..][j - 1];
      }
    }
  }

  lemma {:induction false} FirstFailureOfConcat(a: seq<Op>, b: seq<Op>, script: Script)
    ensures FirstFailure(a + b, script) ==
      if FirstFailure(a, script) < |a| then FirstFailure(a, script) else |a| + FirstFailure(b, Rest(script, |a|))
  {
    if a == [] {
      assert a + b == b && Rest(script, 0) == script;
    } else {
      assert (a + b)[1..] == a[1..] + b;
      FirstFailureOfConcat(a[1..], b, Rest(script, 1));
      RestEntries(script, 1, |a| - 1);
    }
  }

  // ---------- the operations of a batch ----------

  predicate Skipped(p: Plan, c: Keyed) {
    !c.doc.encodable || c.unique in p.seen
  }

  /** The plan after `k` turns, when nothing fails. */
  function PlanAt(docs: seq<Row>, keys: seq<Keyed>, k: nat, now: int): Plan
    requires k <= |keys|
  {
    if k == 0 then Plan(docs, [], {}) else Turn(PlanAt(docs, keys, k - 1, now), keys[k - 1], now)
  }

  /** What has been flushed by then: the changes of the last turn wait for the next statement. */
  function FlushedAt(docs: seq<Row>, keys: seq<Keyed>, k: nat, now: int): seq<Row>
    requires k <= |keys|
  {
    if k == 0 then docs
    else if Skipped(PlanAt(docs, keys, k - 1, now), keys[k - 1]) then FlushedAt(docs, keys, k - 1, now)
    else PlanAt(docs, keys, k - 1, now).docs
  }

  /** A flush of changes, if there are any. */
  function FlushOps(docs: seq<Row>, flushed: seq<Row>): seq<Op> {
    if docs == flushed then [] else [Flush(!Unique(docs))]
  }

  /** The operations of one turn: the look-up by identifier, and by content when there is no row. */
  function TurnOps(p: Plan, flushed: seq<Row>, c: Keyed): seq<Op> {
    if Skipped(p, c) then []
    else FlushOps(p.docs, flushed) + [Statement(p.ids)]
         + if FindUnique(p.docs, c.unique).None? then [Statement(p.ids)] else []
  }

  function OpsOf(docs: seq<Row>, keys: seq<Keyed>, k: nat, now: int): seq<Op>
    requires k <= |keys|
  {
    if k == 0 then []
    else OpsOf(docs, keys, k - 1, now)
         + TurnOps(PlanAt(docs, keys, k - 1, now), FlushedAt(docs, keys, k - 1, now), keys[k - 1])
  }

  function CommitOps(docs: seq<Row>, flushed: seq<Row>): seq<Op> {
    FlushOps(docs, flushed) + [Commit]
  }

  /** All operations of a prepare, in order, up to the first one that fails. */
  function AllOps(docs: seq<Row>, keys: seq<Keyed>, now: int): seq<Op> {
    OpsOf(docs, keys, |keys|, now)
    + CommitOps(PlanAt(docs, keys, |keys|, now).docs, FlushedAt(docs, keys, |keys|, now))
  }

  // ---------- how it ends ----------

  /** How a prepare ends; `Discarded` is a commit that the server turned into a rollback. */
  datatype Ending = Stored | RolledBack | Discarded

  /** It depends on the first operation to fail: after a statement the server discards everything silently. */
  function EndOf(docs: seq<Row>, keys: seq<Keyed>, now: int, script: Script): Ending {
    var ops := AllOps(docs, keys, now);
    var i := FirstFailure(ops, script);
    if i == |ops| then Stored else if ops[i].Statement? then Discarded else RolledBack
  }

  /** The documents returned: all of them, those of the turns before the failed statement, or none. */
  function IdsOf(docs: seq<Row>, keys: seq<Keyed>, now: int, script: Script): seq<int> {
    var ops := AllOps(docs, keys, now);
    var i := FirstFailure(ops, script);
    if i == |ops| then PlanAt(docs, keys, |keys|, now).ids
    else if ops[i].Statement? then ops[i].ids
    else []
  }

  /** None of the flushes clashes. */
  ghost predicate NoClash(ops: seq<Op>) {
    forall i :: 0 <= i < |ops| ==> ops[i] != Flush(true)
  }

  lemma NoClashOfConcat(a: seq<Op>, b: seq<Op>)
    ensures NoClash(a + b) <==> NoClash(a) && NoClash(b)
  {
    if NoClash(a + b) {
      assert forall i :: 0 <= i < |a| ==> a[i] == (a + b)[i];
      assert forall i :: 0 <= i < |b| ==> b[i] == (a + b)[|a| + i];
    }
  }

  lemma TurnClashes(p: Plan, flushed: seq<Row>, c: Keyed)
    requires Unique(flushed)
    ensures NoClash(TurnOps(p, flushed, c)) <==> Skipped(p, c) || Unique(p.docs)
  {
    if !Skipped(p, c) && p.docs != flushed {
      assert TurnOps(p, flushed, c)[0] == Flush(!Unique(p.docs));
    }
  }

  /** The first `k` turns with no clash so far, and nothing pending that will clash. */
  ghost predicate Sailed(docs: seq<Row>, keys: seq<Keyed>, k: nat, now: int)
    requires k <= |keys|
  {
    NoClash(OpsOf(docs, keys, k, now)) && Unique(PlanAt(docs, keys, k, now).docs)
  }

  lemma SailedStep(docs: seq<Row>, keys: seq<Keyed>, k: nat, now: int)
    requires 0 < k <= |keys|
    requires NoClash(OpsOf(docs, keys, k - 1, now)) ==> Unique(FlushedAt(docs, keys, k - 1, now))
    ensures Sailed(docs, keys, k, now) <==>
      Sailed(docs, keys, k - 1, now) && Unique(Turn(PlanAt(docs, keys, k - 1, now), keys[k - 1], now).docs)
    ensures NoClash(OpsOf(docs, keys, k, now)) ==> Unique(FlushedAt(docs, keys, k, now))
  {
    var p, f, c := PlanAt(docs, keys, k - 1, now), FlushedAt(docs, keys, k - 1, now), keys[k - 1];
    NoClashOfConcat(OpsOf(docs, keys, k - 1, now), TurnOps(p, f, c));
    if NoClash(OpsOf(docs, keys, k - 1, now)) {
      TurnClashes(p, f, c);
    }
  }

  /** The batch commits, as far as clashes go, exactly when no flush of its turns clashes and none is left to. */
  lemma {:induction false} PreparedIsThePlan(docs: seq<Row>, keys: seq<Keyed>, k: nat, now: int)
    requires k <= |keys| && Unique(docs)
    ensures Prepare(docs, keys, k, now).Some? <==> Sailed(docs, keys, k, now)
    ensures Prepare(docs, keys, k, now).Some? ==> Prepare(docs, keys, k, now).value == PlanAt(docs, keys, k, now)
    ensures NoClash(OpsOf(docs, keys, k, now)) ==> Unique(FlushedAt(docs, keys, k, now))
  {
    if k > 0 {
      PreparedIsThePlan(docs, keys, k - 1, now);
      SailedStep(docs, keys, k, now);
    }
  }

  /** A look-up that is reached returns the ids of some turns that did not clash. */
  lemma {:induction false} IdsOfTurnsBefore(docs: seq<Row>, keys: seq<Keyed>, k: nat, now: int, i: nat) returns (m: nat)
    requires k <= |keys| && Unique(docs) && i < |OpsOf(docs, keys, k, now)|
    requires OpsOf(docs, keys, k, now)[i].Statement? && NoClash(OpsOf(docs, keys, k, now)[..i])
    ensures m < k && Prepare(docs, keys, m, now).Some?
    ensures OpsOf(docs, keys, k, now)[i].ids == Prepare(docs, keys, m, now).value.ids
  {
    m := k - 1;
    var before := OpsOf(docs, keys, m, now);
    var ops := TurnOps(PlanAt(docs, keys, m, now), FlushedAt(docs, keys, m, now), keys[m]);
    MoreOps(docs, keys, m, now);
    Split(before, ops, OpsOf(docs, keys, k, now), i);
    if i < |before| {
      m := IdsOfTurnsBefore(docs, keys, m, now, i);
    } else {
      IdsOfThisTurn(docs, keys, m, now, i - |before|);
    }
  }

  lemma Split(a: seq<Op>, b: seq<Op>, all: seq<Op>, i: nat)
    requires all == a + b && i < |all|
    ensures i < |a| ==> all[i] == a[i] && all[..i] == a[..i]
    ensures i >= |a| ==> all[i] == b[i - |a|] && all[..i] == a + b[..i - |a|]
  {
  }

  lemma IdsOfThisTurn(docs: seq<Row>, keys: seq<Keyed>, m: nat, now: int, j: nat)
    requires m < |keys| && Unique(docs)
    requires var ops := TurnOps(PlanAt(docs, keys, m, now), FlushedAt(docs, keys, m, now), keys[m]);
      j < |ops| && ops[j].Statement? && NoClash(OpsOf(docs, keys, m, now) + ops[..j])
    ensures Prepare(docs, keys, m, now).Some?
    ensures TurnOps(PlanAt(docs, keys, m, now), FlushedAt(docs, keys, m, now), keys[m])[j].ids
         == Prepare(docs, keys, m, now).value.ids
  {
    var p, f := PlanAt(docs, keys, m, now), FlushedAt(docs, keys, m, now);
    var ops := TurnOps(p, f, keys[m]);
    NoClashOfConcat(OpsOf(docs, keys, m, now), ops[..j]);
    PreparedIsThePlan(docs, keys, m, now);
    if p.docs != f {
      assert ops[0] == Flush(!Unique(p.docs)) && ops[..j][0] == ops[0];
    }
  }

  /** The first failure of one turn. */
  lemma TurnFailure(p: Plan, flushed: seq<Row>, c: Keyed, script: Script)
    requires !Skipped(p, c)
    ensures var n, ops := |FlushOps(p.docs, flushed)|, TurnOps(p, flushed, c);
      FirstFailure(ops, script) ==
        if n == 1 && (Entry(script, 0).Raised? || !Unique(p.docs)) then 0
        else if Entry(script, n).Raised? then n
        else if FindUnique(p.docs, c.unique).None? && Entry(script, n + 1).Raised? then n + 1
        else |ops|
  {
    var n, ops := |FlushOps(p.docs, flushed)|, TurnOps(p, flushed, c);
    var f := if n == 1 && (Entry(script, 0).Raised? || !Unique(p.docs)) then 0
             else if Entry(script, n).Raised? then n
             else if FindUnique(p.docs, c.unique).None? && Entry(script, n + 1).Raised? then n + 1
             else |ops|;
    assert n == 1 ==> ops[0] == Flush(!Unique(p.docs));
    assert ops[n] == Statement(p.ids);
    assert FindUnique(p.docs, c.unique).None? ==> ops[n + 1] == Statement(p.ids) && |ops| == n + 2;
    FirstFailureMeans(ops, script, f);
  }

  /** The first failure of the commit. */
  lemma CommitFailure(docs: seq<Row>, flushed: seq<Row>, script: Script)
    ensures var n, ops := |FlushOps(docs, flushed)|, CommitOps(docs, flushed);
      FirstFailure(ops, script) ==
        if n == 1 && (Entry(script, 0).Raised? || !Unique(docs)) then 0
        else if Entry(script, n).Raised? then n
        else |ops|
  {
    var n, ops := |FlushOps(docs, flushed)|, CommitOps(docs, flushed);
    assert n == 1 ==> ops[0] == Flush(!Unique(docs));
    assert ops[n] == Commit;
    FirstFailureMeans(ops, script, if n == 1 && (Entry(script, 0).Raised? || !Unique(docs)) then 0
                                   else if Entry(script, n).Raised? then n
                                   else |ops|);
  }

  lemma MoreOps(docs: seq<Row>, keys: seq<Keyed>, k: nat, now: int)
    requires k < |keys|
    ensures var p, f := PlanAt(docs, keys, k, now), FlushedAt(docs, keys, k, now);
      && PlanAt(docs, keys, k + 1, now) == Turn(p, keys[k], now)
      && FlushedAt(docs, keys, k + 1, now) == (if Skipped(p, keys[k]) then f else p.docs)
      && OpsOf(docs, keys, k + 1, now) == OpsOf(docs, keys, k, now) + TurnOps(p, f, keys[k])
  {
  }

  /** How a list of operations fails when more are added. */
  lemma MoreFailures(before: seq<Op>, ops: seq<Op>, all: seq<Op>, script: Script)
    requires all == before + ops
    ensures FirstFailure(all, script) == (if FirstFailure(before, script) < |before| then FirstFailure(before, script)
                                          else |before| + FirstFailure(ops, Rest(script, |before|)))
    ensures Rest(Rest(script, |before|), |ops|) == Rest(script, |all|)
  {
    FirstFailureOfConcat(before, ops, script);
    RestEntries(script, |before|, |ops|);
  }

  /** How it ends, from what the turns have left to the commit. */
  lemma EndAfterTurns(docs: seq<Row>, keys: seq<Keyed>, now: int, script: Script)
    ensures var p, f := PlanAt(docs, keys, |keys|, now), FlushedAt(docs, keys, |keys|, now);
      var before := OpsOf(docs, keys, |keys|, now);
      var i, rest := FirstFailure(before, script), Rest(script, |before|);
      var n := |FlushOps(p.docs, f)|;
      if i < |before| then
        && EndOf(docs, keys, now, script) == (if before[i].Statement? then Discarded else RolledBack)
        && IdsOf(docs, keys, now, script) == (if before[i].Statement? then before[i].ids else [])
      else if (n == 1 ==> Entry(rest, 0).Done? && Unique(p.docs)) && Entry(rest, n).Done? then
        EndOf(docs, keys, now, script) == Stored && IdsOf(docs, keys, now, script) == p.ids
      else
        EndOf(docs, keys, now, script) == RolledBack && IdsOf(docs, keys, now, script) == []
  {
    var p, f := PlanAt(docs, keys, |keys|, now), FlushedAt(docs, keys, |keys|, now);
    var before := OpsOf(docs, keys, |keys|, now);
    FirstFailureOfConcat(before, CommitOps(p.docs, f), script);
    CommitFailure(p.docs, f, Rest(script, |before|));
  }

  // ---------- exactly when ----------

  /** Operation `i` is the first to fail. */
  ghost predicate FailsFirst(ops: seq<Op>, script: Script, i: nat)
    requires i < |ops|
  {
    Fails(ops[i], Entry(script, i)) && forall j :: 0 <= j < i ==> !Fails(ops[j], Entry(script, j))
  }

  /**
    The server discards the batch exactly when the first operation to fail is a look-up, and the documents
    of the turns before are returned; it is rolled back exactly when that is a flush or the commit.
   */
  lemma EndsExactly(docs: seq<Row>, keys: seq<Keyed>, now: int, script: Script)
    ensures var ops := AllOps(docs, keys, now);
      && (EndOf(docs, keys, now, script) == Discarded <==>
          exists i: nat :: i < |ops| && ops[i].Statement? && FailsFirst(ops, script, i))
      && (EndOf(docs, keys, now, script) == RolledBack <==>
          exists i: nat :: i < |ops| && !ops[i].Statement? && FailsFirst(ops, script, i))
      && (forall i: nat :: i < |ops| && ops[i].Statement? && FailsFirst(ops, script, i) ==>
            IdsOf(docs, keys, now, script) == ops[i].ids)
  {
    var ops := AllOps(docs, keys, now);
    var f := FirstFailure(ops, script);
    FirstFailureMeans(ops, script, f);
    forall i: nat | i < |ops| && FailsFirst(ops, script, i)
      ensures i == f
    {
      FirstFailureMeans(ops, script, i);
    }
    if f < |ops| {
      assert FailsFirst(ops, script, f);
    }
  }

  /** The documents that a discarded batch returns are those of its first `m` turns, none of which clashed. */
  lemma DiscardedReturnsSomeTurns(docs: seq<Row>, keys: seq<Keyed>, now: int, script: Script) returns (m: nat)
    requires Unique(docs) && EndOf(docs, keys, now, script) == Discarded
    ensures m < |keys| && Prepare(docs, keys, m, now).Some?
    ensures IdsOf(docs, keys, now, script) == Prepare(docs, keys, m, now).value.ids
  {
    var ops, before := AllOps(docs, keys, now), OpsOf(docs, keys, |keys|, now);
    var i := FirstFailure(ops, script);
    FirstFailureMeans(ops, script, i);
    assert i < |before| && before[i] == ops[i] && before[..i] == ops[..i];
    assert forall j :: 0 <= j < i ==> !Fails(ops[j], Entry(script, j));
    m := IdsOfTurnsBefore(docs, keys, |keys|, now, i);
  }

  /** When every operation succeeds the batch is stored, and it is what the diff says. */
  lemma StoredIsPrepared(docs: seq<Row>, keys: seq<Keyed>, now: int, script: Script)
    requires Unique(docs) && EndOf(docs, keys, now, script) == Stored
    ensures Prepare(docs, keys, |keys|, now) == Some(PlanAt(docs, keys, |keys|, now))
    ensures IdsOf(docs, keys, now, script) == PlanAt(docs, keys, |keys|, now).ids
  {
    AllFine(docs, keys, now, script);
    ClashesOfAll(docs, keys, now);
  }

  lemma AllFine(docs: seq<Row>, keys: seq<Keyed>, now: int, script: Script)
    requires EndOf(docs, keys, now, script) == Stored
    ensures NoClash(AllOps(docs, keys, now))
  {
    var ops := AllOps(docs, keys, now);
    FirstFailureMeans(ops, script, |ops|);
    assert forall i :: 0 <= i < |ops| ==> !Fails(ops[i], Entry(script, i));
  }

  lemma ClashesOfAll(docs: seq<Row>, keys: seq<Keyed>, now: int)
    requires Unique(docs)
    ensures NoClash(AllOps(docs, keys, now)) <==> Prepare(docs, keys, |keys|, now).Some?
    ensures Prepare(docs, keys, |keys|, now).Some? ==>
      Prepare(docs, keys, |keys|, now).value == PlanAt(docs, keys, |keys|, now)
  {
    var p, f := PlanAt(docs, keys, |keys|, now).docs, FlushedAt(docs, keys, |keys|, now);
    PreparedIsThePlan(docs, keys, |keys|, now);
    NoClashOfConcat(OpsOf(docs, keys, |keys|, now), CommitOps(p, f));
    if p != f {
      assert CommitOps(p, f)[0] == Flush(!Unique(p));
    }
  }

  ghost predicate AllDone(script: Script) {
    forall k :: 0 <= k < |script| ==> script[k] == Done
  }

  /** Without scripted failures the batch is stored exactly when no flush clashes, and never discarded. */
  lemma CleanScriptEnds(docs: seq<Row>, keys: seq<Keyed>, now: int, script: Script)
    requires Unique(docs) && AllDone(script)
    ensures EndOf(docs, keys, now, script) == if Prepare(docs, keys, |keys|, now).Some? then Stored else RolledBack
  {
    var ops := AllOps(docs, keys, now);
    var f := FirstFailure(ops, script);
    FirstFailureMeans(ops, script, f);
    ClashesOfAll(docs, keys, now);
    if f == |ops| {
      assert forall i :: 0 <= i < |ops| ==> !Fails(ops[i], Entry(script, i));
    }
  }

  /** The first turn of a batch of new documents inserts the first one, after two look-ups. */
  lemma FirstTurnInserts(a: Keyed, b: Keyed, now: int)
    requires a.doc.encodable
    ensures PlanAt([], [a, b], 1, now) == Plan([NewRow(a, now)], [0], {a.unique})
    ensures FlushedAt([], [a, b], 1, now) == []
    ensures OpsOf([], [a, b], 1, now) == [Statement([]), Statement([])]
  {
    MoreOps([], [a, b], 0, now);
    assert PlanAt([], [a, b], 0, now) == Plan([], [], {});
  }

  /** The second turn flushes it and looks up the second one. */
  lemma SecondTurnLooksUp(a: Keyed, b: Keyed, now: int)
    requires a.doc.encodable && b.doc.encodable && a.unique != b.unique
    ensures var ops := OpsOf([], [a, b], 2, now);
      |ops| > 3 && ops[..4] == [Statement([]), Statement([]), Flush(false), Statement([0])]
  {
    FirstTurnInserts(a, b, now);
    MoreOps([], [a, b], 1, now);
    var p := Plan([NewRow(a, now)], [0], {a.unique});
    assert TurnOps(p, [], b)[..2] == [Flush(false), Statement([0])];
  }

  /**
    It does happen: two new documents, and the look-up of the second fails. The first one is returned,
    although the server discards it.
   */
  lemma DiscardedDocumentIsReturned(a: Keyed, b: Keyed, now: int, message: string)
    requires a.doc.encodable && b.doc.encodable && a.unique != b.unique
    ensures EndOf([], [a, b], now, [Done, Done, Done, Raised(message)]) == Discarded
    ensures IdsOf([], [a, b], now, [Done, Done, Done, Raised(message)]) == [0]
  {
    SecondTurnLooksUp(a, b, now);
    var turns, ops := OpsOf([], [a, b], 2, now), AllOps([], [a, b], now);
    assert forall k :: 0 <= k < 4 ==> ops[k] == turns[..4][k];
    FirstFailureMeans(ops, [Done, Done, Done, Raised(message)], 3);
  }
}
