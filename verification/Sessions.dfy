/** A database session that may fail at any operation. */
module Sessions {
  import opened Common
  import opened Tables
  import opened PrepareScript

  const CONFLICT: string := "IntegrityError"
  const PENDING_ROLLBACK: string := "PendingRollbackError"
  const ABORTED: string := "InFailedSqlTransaction"
  const STALE: string := "StaleDataError"

  /** How many script entries a flush takes. */
  function FlushCost(flushed: Tables, work: Tables): nat {
    if work == flushed then 0 else 1
  }

  /** Whether a flush succeeds: an aborted transaction takes no changes, and the constraints must hold. */
  predicate CanFlush(usable: bool, aborted: bool, flushed: Tables, work: Tables, faults: Script) {
    usable && Unique(work.docs) && (work != flushed ==> !aborted && Entry(faults, 0).Done?)
  }

  /**
    A session: the committed tables, what the open transaction has flushed, and its view with the
    changes not flushed yet. After a failed flush or commit the session is not `usable` before a
    rollback. After a failed statement the server has `aborted` the transaction: it refuses every
    further statement, and discards everything on a commit without saying so. `faults` scripts the
    failures: each operation that may raise takes the next entry, so all scripts together are all
    ways of failing at any step.
   */
  class Session {
    var committed: Tables
    var flushed: Tables
    var work: Tables
    var usable: bool
    var aborted: bool
    var faults: Script
    var nextId: int

    ghost predicate Valid()
      reads this
    {
      && Unique(committed.docs) && Unused(committed, nextId)
      && |committed.docs| <= |work.docs|
    }

    predicate Live()
      reads this
    {
      usable && !aborted
    }

    /** Nothing is pending. */
    ghost predicate Clean()
      reads this
    {
      usable ==> work == flushed == committed
    }

    ghost predicate NoFaults()
      reads this
    {
      AllDone(faults)
    }

    constructor (t: Tables, faults: Script, nextId: int)
      requires Unique(t.docs) && Unused(t, nextId)
      ensures Valid() && Clean() && Live() && committed == t && this.faults == faults
    {
      committed, flushed, work, usable, aborted := t, t, t, true, false;
      this.faults, this.nextId := faults, nextId;
    }

    /** Something that may raise. */
    method Attempt() returns (o: Outcome)
      modifies this`faults
      ensures o == Entry(old(faults), 0) && faults == Rest(old(faults), 1)
      ensures old(NoFaults()) ==> NoFaults()
    {
      if faults == [] {
        o := Done;
      } else {
        o, faults := faults[0], faults[1..];
      }
    }

    /** Pending changes are written, against the unique constraints. */
    method Flush() returns (o: Outcome)
      modifies this`faults, this`usable, this`flushed
      ensures o.Done? <==> CanFlush(old(usable), aborted, old(flushed), work, old(faults))
      ensures usable == o.Done?
      ensures flushed == if o.Done? then work else old(flushed)
      ensures faults == if old(usable) then Rest(old(faults), FlushCost(old(flushed), work)) else old(faults)
      ensures old(NoFaults()) ==> NoFaults()
    {
      if !usable {
        return Raised(PENDING_ROLLBACK);
      }
      o := Done;
      if work != flushed {
        o := Attempt();
        if o.Done? && aborted {
          o := Raised(ABORTED);
        }
      }
      if o.Done? && !Unique(work.docs) {
        o := Raised(CONFLICT);
      }
      usable := o.Done?;
      if usable {
        flushed := work;
      }
    }

    /** A flush of an update whose row does not exist: it matches no row and raises. */
    method FlushMissing() returns (o: Outcome)
      modifies this`faults, this`usable
      ensures o.Raised? && !usable
      ensures old(NoFaults()) ==> NoFaults()
    {
      o := Attempt();
      if o.Done? {
        o := Raised(STALE);
      }
      usable := false;
    }

    /** A statement: pending changes are flushed first. In an aborted transaction it raises, and aborted it stays. */
    method Execute() returns (o: Outcome)
      modifies this`faults, this`usable, this`aborted, this`flushed
      ensures usable == CanFlush(old(usable), old(aborted), old(flushed), work, old(faults))
      ensures o.Done? <==> usable && !old(aborted) && Entry(old(faults), FlushCost(old(flushed), work)).Done?
      ensures aborted == if usable then o.Raised? else old(aborted)
      ensures flushed == if usable then work else old(flushed)
      ensures usable ==> faults == Rest(old(faults), FlushCost(old(flushed), work) + 1)
      ensures old(NoFaults()) ==> NoFaults()
    {
      o := Flush();
      if o.Done? {
        RestEntries(old(faults), FlushCost(old(flushed), work), 0);
        RestEntries(old(faults), FlushCost(old(flushed), work), 1);
        o := Attempt();
        if o.Done? && aborted {
          o := Raised(ABORTED);
        }
        aborted := o.Raised?;
      }
    }

    /** A commit; an aborted transaction is discarded instead, silently, unless a flush fails first. */
    method Commit() returns (o: Outcome)
      modifies this`faults, this`usable, this`aborted, this`flushed, this`work, this`committed
      ensures o.Done? <==> (CanFlush(old(usable), old(aborted), old(flushed), old(work), old(faults))
        && (old(aborted) || Entry(old(faults), FlushCost(old(flushed), old(work))).Done?))
      ensures o.Done? ==> Live() && work == flushed == committed
      ensures o.Done? ==> committed == if old(aborted) then old(committed) else old(work)
      ensures o.Raised? ==> !usable && committed == old(committed) && work == old(work)
      ensures old(NoFaults()) ==> NoFaults()
    {
      o := Flush();
      if o.Raised? {
        return;
      }
      if aborted {
        work, flushed, aborted := committed, committed, false;
        return;
      }
      RestEntries(old(faults), FlushCost(old(flushed), old(work)), 0);
      o := Attempt();
      usable := o.Done?;
      if usable {
        committed := work;
      }
    }

    method Rollback() returns (o: Outcome)
      modifies this`faults, this`usable, this`aborted, this`flushed, this`work
      ensures o.Done? ==> Live() && work == flushed == committed
      ensures o.Raised? ==> !usable && work == old(work)
      ensures o == Entry(old(faults), 0)
      ensures old(NoFaults()) ==> NoFaults()
    {
      o := Attempt();
      usable := o.Done?;
      if usable {
        work, flushed, aborted := committed, committed, false;
      }
    }
  }
}
