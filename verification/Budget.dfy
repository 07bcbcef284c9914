/** The concurrency budget of one operation: slots, once-per-key tasks and the
    first genuine failure (internal/parallel/budget.go). */
module Budgets {
  import opened Graph

  // Ctx is any context error; Fail is a genuine one, told apart by its code.
  datatype Err = None | Ctx | Fail(code: nat)

  datatype Task = Open(owner: nat) | Closed(err: Err)

  /** The failure on record after err has been recorded. */
  function Noted(failure: Err, err: Err): Err {
    if failure.None? && err.Fail? then err else failure
  }

  /** What to report for a run that ended in err. */
  function CauseOf(failure: Err, err: Err): Err {
    if err.None? || failure.None? then err else failure
  }

  /** The slot limit a requested concurrency gives. */
  function Clamp(limit: int): (r: nat)
    ensures r >= 1
  {
    if limit < 1 then 1 else limit
  }

  /** The budget itself, at the granularity of its critical sections. Slots are counted;
      who waits for what is the business of the transfer machine. */
  class Budget {
    const limit: nat
    var slots: nat
    var tasks: map<Digest, Task>
    var failure: Err

    ghost predicate Valid()
      reads this
    {
      1 <= limit && slots <= limit
    }

    constructor (requested: int)
      ensures Valid() && limit == if requested < 1 then 1 else requested
      ensures slots == 0 && tasks == map[] && failure == None
    {
      limit := Clamp(requested);
      slots, tasks, failure := 0, map[], None;
    }

    /** Slot's way in. A cancellation it sees first wins over a free slot; else it waits until a slot is
        free or the context ends. Meanwhile, of the other callers, some leave and some come; ended says
        the context has ended by then. */
    method Enter(cancelled: bool, left: nat, came: nat, ended: bool) returns (err: Err)
      requires Valid() && left <= slots && slots - left + came <= limit
      requires cancelled || slots - left + came < limit || ended
      modifies this`slots
      ensures Valid()
      ensures cancelled ==> err == Ctx && slots == old(slots)
      ensures !cancelled ==> err == None || (err == Ctx && ended)
      ensures !cancelled ==> slots == old(slots) - left + came + (if err.None? then 1 else 0)
    {
      if cancelled {
        return Ctx;
      }
      slots := slots - left + came;
      var takes: bool := *;
      if slots < limit && (takes || !ended) {
        slots := slots + 1;
        err := None;
      } else {
        err := Ctx;
      }
    }

    method Leave()
      requires Valid() && slots > 0
      modifies this`slots
      ensures Valid() && slots == old(slots) - 1
    {
      slots := slots - 1;
    }

    /** Once's locked section: exactly the first caller for a key gets to claim it. */
    method Claim(key: Digest, caller: nat) returns (found: bool)
      modifies this`tasks
      ensures found == (key in old(tasks))
      ensures tasks == if found then old(tasks) else old(tasks)[key := Open(caller)]
    {
      found := key in tasks;
      if !found {
        tasks := tasks[key := Open(caller)];
      }
    }

    /** Once's way out for the claimer: record, then publish. */
    method Complete(key: Digest, err: Err)
      modifies this`tasks, this`failure
      ensures tasks == old(tasks)[key := Closed(err)] && failure == Noted(old(failure), err)
    {
      Record(err);
      tasks := tasks[key := Closed(err)];
    }

    method Record(err: Err)
      modifies this`failure
      ensures failure == Noted(old(failure), err)
    {
      if err.None? || err.Ctx? {
        return;
      }
      if failure.None? {
        failure := err;
      }
    }

    method Cause(err: Err) returns (told: Err)
      ensures told == CauseOf(failure, err)
      ensures told.None? <==> err.None?
    {
      if err.None? {
        return None;
      }
      if !failure.None? {
        return failure;
      }
      told := err;
    }
  }
}
