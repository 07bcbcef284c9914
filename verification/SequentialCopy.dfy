/** The copier as it runs at a limit of 1, in the caller's goroutine
    (pkg/registry/copy.go): a recursive walk over the budget and the destination. */
module SequentialCopy {
  import opened Graph
  import opened Budgets
  import opened Transfer
  import opened TransferSerial

  class Copier {
    const refs: Refs
    // What each endpoint operation comes back with.
    const outcome: (Op, Digest) -> Err
    const budget: Budget
    var log: seq<Digest>
    // The caller has cancelled: at any time, and for good.
    var gone: bool

    constructor (refs: Refs, outcome: (Op, Digest) -> Err, requested: int)
      ensures this.refs == refs && this.outcome == outcome && log == [] && !gone
      ensures fresh(budget) && budget.Valid() && budget.limit == if requested < 1 then 1 else requested
      ensures budget.slots == 0 && budget.tasks == map[] && budget.failure == None
    {
      this.refs, this.outcome, log, gone := refs, outcome, [], false;
      budget := new Budget(requested);
    }

    /** Between calls: the pushed digests are exactly the tasks closed without error, and
        the only other tasks are the open ones of the documents above. */
    ghost predicate Ready(rank: Digest -> nat, open: set<Digest>)
      reads this, budget
    {
      && Ranked(refs, rank) && budget.Valid() && budget.slots == 0
      && (forall d :: d in log <==> d in budget.tasks && budget.tasks[d] == Closed(None))
      && (forall d :: d in open <==> d in budget.tasks && d !in log)
      && (forall d | d in open :: budget.tasks[d].Open?)
    }

    /** The look at the context. */
    method Poll()
      modifies this`gone
      ensures old(gone) ==> gone
    {
      var cancels: bool := *;
      if cancels { gone := true; }
    }

    /** What a call can come back with: what an operation did, or the caller's cancellation. */
    ghost predicate Told(err: Err)
      reads this
    {
      (err == Ctx && gone) || exists op, x :: outcome(op, x) == err
    }

    /** One endpoint operation, under a slot for as long as it takes; none once the caller has cancelled. */
    method Operate(op: Op, d: Digest) returns (err: Err)
      requires budget.Valid() && budget.slots == 0
      modifies this`gone, budget`slots
      ensures budget.Valid() && budget.slots == 0 && (old(gone) ==> gone)
      ensures err == outcome(op, d) || (err == Ctx && gone)
      ensures old(gone) ==> err == Ctx
    {
      Poll();
      var cancelled := gone;
      Poll();
      var entered := budget.Enter(cancelled, 0, 0, gone);
      if !entered.None? { return entered; }
      err := outcome(op, d);
      budget.Leave();
    }

    /** copy: at most once per digest. On success the log has grown by the post-order walk
        of what was missing; on failure it stops strictly inside that walk, and on cancellation
        somewhere in it. */
    method Copy(d: Digest, ghost rank: Digest -> nat, ghost open: set<Digest>) returns (err: Err)
      requires Ready(rank, open) && forall x | x in open :: rank(d) < rank(x)
      modifies this`log, this`gone, budget
      ensures budget.Valid() && budget.slots == 0
      ensures budget.failure == Noted(old(budget.failure), err)
      ensures err.None? ==> Ready(rank, open) && log == Visit(refs, rank, old(log), d)
      ensures (!err.None? ==> Told(err)) && (old(gone) ==> gone)
      ensures !err.None? ==> old(log) <= log <= Visit(refs, rank, old(log), d)
      ensures err.Fail? ==> log < Visit(refs, rank, old(log), d)
      ensures old(gone) ==> err == Ctx
      decreases rank(d), 2, 0
    {
      Poll();
      VisitExtends(refs, rank, log, d);
      if gone { return Ctx; }
      var found := budget.Claim(d, 0);
      if found {
        // Waiting on the task's result: at a limit of 1 it is always in already, but a cancellation
        // that comes in meanwhile may win.
        Poll();
        var wins: bool := *;
        if gone && wins { return Ctx; }
        err := budget.tasks[d].err;
        return;
      }
      err := Walk(d, rank, open);
      budget.Complete(d, err);
    }

    /** walk: everything d references, then d. */
    method Walk(d: Digest, ghost rank: Digest -> nat, ghost open: set<Digest>) returns (err: Err)
      requires Ready(rank, open + {d}) && d !in open && forall x | x in open :: rank(d) < rank(x)
      modifies this`log, this`gone, budget
      ensures budget.Valid() && budget.slots == 0
      ensures budget.failure == Noted(old(budget.failure), err) || budget.failure == old(budget.failure)
      ensures err.None? ==> log == Visit(refs, rank, old(log), d)
      ensures err.None? ==> forall x | x != d :: x in log <==> x in budget.tasks && budget.tasks[x] == Closed(None)
      ensures err.None? ==> forall x :: x in open <==> x in budget.tasks && x !in log
      ensures err.None? ==> forall x | x in open :: budget.tasks[x].Open?
      ensures (!err.None? ==> Told(err)) && (old(gone) ==> gone)
      ensures !err.None? ==> old(log) <= log < Visit(refs, rank, old(log), d)
      decreases rank(d), 1, 0
    {
      VisitAllExtends(refs, rank, rank(d), log, Out(refs, d));
      if d in refs {
        err := Operate(Fetch, d);
        if !err.None? {
          return;
        }
        err := CopyAll(refs[d], rank, open + {d}, rank(d));
        if !err.None? {
          return;
        }
      }
      err := Operate(Push, d);
      if err.None? {
        log := log + [d];
      }
    }

    /** copyAll at a limit of 1: in order, stopping at the first failure. */
    method CopyAll(ds: seq<Digest>, ghost rank: Digest -> nat, ghost open: set<Digest>, ghost bound: nat) returns (err: Err)
      requires Ready(rank, open) && (forall x | x in ds :: rank(x) < bound) && forall x | x in open :: bound <= rank(x)
      modifies this`log, this`gone, budget
      ensures budget.Valid() && budget.slots == 0
      ensures budget.failure == Noted(old(budget.failure), err)
      ensures err.None? ==> Ready(rank, open) && log == VisitAll(refs, rank, bound, old(log), ds)
      ensures (!err.None? ==> Told(err)) && (old(gone) ==> gone)
      ensures !err.None? ==> old(log) <= log <= VisitAll(refs, rank, bound, old(log), ds)
      decreases bound, 0, |ds|
    {
      err := None;
      var i := 0;
      while i < |ds|
        invariant 0 <= i <= |ds| && err.None? && (old(gone) ==> gone)
        invariant Ready(rank, open) && old(log) <= log
        invariant budget.failure == old(budget.failure)
        invariant VisitAll(refs, rank, bound, log, ds[i..]) == VisitAll(refs, rank, bound, old(log), ds)
      {
        VisitExtends(refs, rank, log, ds[i]);
        assert ds[i..][1..] == ds[i + 1..];
        VisitAllExtends(refs, rank, bound, Visit(refs, rank, log, ds[i]), ds[i + 1..]);
        err := Copy(ds[i], rank, open);
        budget.Record(err);
        if !err.None? {
          return;
        }
        i := i + 1;
      }
    }

    /** Copy: what it reports is what stopped it; a success has pushed the whole walk, a
        failure a proper beginning of it. */
    method Run(root: Digest, ghost rank: Digest -> nat) returns (told: Err)
      requires Ready(rank, {}) && log == [] && budget.failure == None
      modifies this`log, this`gone, budget
      ensures told.None? ==> log == Visit(refs, rank, [], root)
      ensures !told.None? ==> log <= Visit(refs, rank, [], root)
      ensures told.Fail? ==> log < Visit(refs, rank, [], root)
      ensures !told.None? ==> Told(told)
      ensures old(gone) ==> told == Ctx
      ensures told.Fail? ==> budget.failure == told
    {
      var err := Copy(root, rank, {});
      told := budget.Cause(err);
    }
  }
}
