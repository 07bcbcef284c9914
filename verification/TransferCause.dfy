/** What a failed transfer reports is the first genuine failure recorded, never the
    cancellation that failure set off. */
module TransferCause {
  import opened Graph
  import opened Budgets
  import opened Transfer
  import opened TransferInvariant
  import opened TransferProgress

  /** The caller never cancels, and an operation returns a context error only when
      its own context is cancelled. */
  ghost predicate Honest(s: State, a: Action) {
    a != CallerCancels && (a.Finish? && a.f < |s.frames| && a.out.Ctx? ==> Cancelled(s, a.f))
  }

  ghost predicate IsHonestRun(c: Config, s: State, run: seq<Action>, t: State)
    decreases |run|
  {
    if run == [] then s == t
    else Honest(s, run[0]) && Guard(c, s, run[0]) && IsHonestRun(c, Next(c, s, run[0]), run[1..], t)
  }

  function ErrOf(pc: Pc): Err {
    match pc
    case Releasing(_, e) => e
    case Fan(e) => e
    case Finishing(e) => e
    case Closing(e) => e
    case Returned(e) => e
    case Recorded(e) => e
    case Joined(e) => e
    case _ => None
  }

  /** Points at which a genuine failure has already been recorded. */
  predicate AfterRecord(m: Discipline, pc: Pc) {
    pc.Closing? || pc.Recorded? || pc.Joined? || pc.Fan? || (m == KeyThenSlot && pc.Returned?)
  }

  ghost predicate Blamed(c: Config, s: State, pc: Pc) {
    var e := ErrOf(pc);
    && (e.Ctx? ==> s.failure.Fail?)
    && (e.Fail? ==> e.code in s.raised)
    && (e.Fail? && AfterRecord(c.mode, pc) ==> s.failure.Fail?)
  }

  ghost predicate Blame(c: Config, s: State) {
    && !s.callerGone
    && (s.cancelled != {} ==> s.failure.Fail?)
    && (forall f | 0 <= f < |s.frames| :: Blamed(c, s, s.frames[f].pc))
    && (forall d | d in s.tasks && s.tasks[d].Closed? && !s.tasks[d].err.None? ::
          s.failure.Fail? && (s.tasks[d].err.Fail? ==> s.tasks[d].err.code in s.raised))
    && s.failure == (if s.reported == [] then None else Fail(s.reported[0]))
    && (forall i | 0 <= i < |s.reported| :: s.reported[i] in s.raised)
  }

  lemma {:induction false} CancelledByGroup(s: State, f: nat)
    requires f < |s.frames| && Cancelled(s, f) && !s.callerGone
    ensures s.cancelled != {}
    decreases f
  {
    var p := s.frames[f].parent;
    if p !in s.cancelled { CancelledByGroup(s, p); }
  }

  /** One frame moves; what was on record stays on record. */
  lemma BlameLocal(c: Config, s: State, s': State, f: nat)
    requires Blame(c, s) && f < |s.frames| == |s'.frames|
    requires s'.frames == s.frames[f := s'.frames[f]]
    requires s'.callerGone == s.callerGone && s'.cancelled == s.cancelled
    requires s.failure.Fail? ==> s'.failure.Fail?
    requires s.raised <= s'.raised
    requires s'.failure == (if s'.reported == [] then None else Fail(s'.reported[0]))
    requires forall i | 0 <= i < |s'.reported| :: s'.reported[i] in s'.raised
    requires forall d | d in s'.tasks && s'.tasks[d].Closed? && !s'.tasks[d].err.None? ::
      (d in s.tasks && s.tasks[d] == s'.tasks[d]) ||
      (s'.failure.Fail? && (s'.tasks[d].err.Fail? ==> s'.tasks[d].err.code in s'.raised))
    requires Blamed(c, s', s'.frames[f].pc)
    ensures Blame(c, s')
  {
    forall g | 0 <= g < |s'.frames| ensures Blamed(c, s', s'.frames[g].pc) {
      assert Blamed(c, s, s.frames[g].pc);
    }
  }

  lemma BlameRecord(c: Config, s: State, f: nat, pc: Pc)
    requires Blame(c, s) && f < |s.frames|
    requires (s.frames[f].pc.Finishing? && pc == Closing(s.frames[f].pc.err)) ||
             (s.frames[f].pc.Returned? && pc == Recorded(s.frames[f].pc.err))
    ensures Blame(c, SetPc(Record(s, s.frames[f].pc.err), f, pc))
  {
    assert Blamed(c, s, s.frames[f].pc);
    BlameLocal(c, s, SetPc(Record(s, s.frames[f].pc.err), f, pc), f);
  }

  lemma BlameJoin(c: Config, s: State, f: nat)
    requires Blame(c, s) && Guard(c, s, Join(f))
    ensures Blame(c, Next(c, s, Join(f)))
  {
    var s' := Next(c, s, Join(f));
    var p := s.frames[f].parent;
    assert Blamed(c, s, s.frames[f].pc) && Blamed(c, s, s.frames[p].pc);
    forall g | 0 <= g < |s'.frames| ensures Blamed(c, s', s'.frames[g].pc) {
      assert Blamed(c, s, s.frames[g].pc);
    }
  }

  lemma BlameSpawn(c: Config, s: State, f: nat)
    requires Blame(c, s) && Guard(c, s, Spawn(f))
    ensures Blame(c, Next(c, s, Spawn(f)))
  {
    var s' := Next(c, s, Spawn(f));
    forall g | 0 <= g < |s'.frames| ensures Blamed(c, s', s'.frames[g].pc) {
      if g < |s.frames| { assert Blamed(c, s, s.frames[g].pc); }
    }
  }

  /** Leaving because of cancellation: some group was cancelled by an error. */
  lemma BlameLeave(c: Config, s: State, a: Action)
    requires Blame(c, s) && Guard(c, s, a) && (a.Abandon? || a.Enter?)
    ensures Blame(c, Next(c, s, a))
  {
    assert Blamed(c, s, s.frames[a.f].pc);
    if Cancelled(s, a.f) { CancelledByGroup(s, a.f); }
    BlameLocal(c, s, Next(c, s, a), a.f);
  }

  lemma BlameFinish(c: Config, s: State, f: nat, out: Err)
    requires Blame(c, s) && Guard(c, s, Finish(f, out)) && Honest(s, Finish(f, out))
    ensures Blame(c, Next(c, s, Finish(f, out)))
  {
    if Cancelled(s, f) { CancelledByGroup(s, f); }
    BlameLocal(c, s, Next(c, s, Finish(f, out)), f);
  }

  lemma BlameMove(c: Config, s: State, a: Action)
    requires Blame(c, s) && Data(c, s) && Guard(c, s, a)
    requires a.Wake? || a.Pass? || a.Acquire? || a.Close?
    ensures Blame(c, Next(c, s, a))
  {
    assert Blamed(c, s, s.frames[a.f].pc);
    BlameLocal(c, s, Next(c, s, a), a.f);
  }

  lemma BlameResult(c: Config, s: State, a: Action)
    requires Blame(c, s) && Guard(c, s, a) && (a.Gather? || a.Release?)
    ensures Blame(c, Next(c, s, a))
  {
    assert Blamed(c, s, s.frames[a.f].pc);
    BlameLocal(c, s, Next(c, s, a), a.f);
  }

  lemma BlameAsk(c: Config, s: State, f: nat)
    requires Blame(c, s) && Guard(c, s, Ask(f))
    ensures Blame(c, Next(c, s, Ask(f)))
  {
    BlameLocal(c, s, Next(c, s, Ask(f)), f);
  }

  lemma BlameStep(c: Config, s: State, a: Action)
    requires Blame(c, s) && Data(c, s) && Guard(c, s, a) && Honest(s, a)
    ensures Blame(c, Next(c, s, a))
  {
    match a
    case Enter(f) => BlameLeave(c, s, a);
    case Abandon(f) => BlameLeave(c, s, a);
    case Finish(f, out) => BlameFinish(c, s, f, out);
    case Spawn(f) => BlameSpawn(c, s, f);
    case Join(f) => BlameJoin(c, s, f);
    case Note(f) => BlameRecord(c, s, f, Closing(s.frames[f].pc.err));
    case Report(f) => BlameRecord(c, s, f, Recorded(s.frames[f].pc.err));
    case Ask(f) => BlameAsk(c, s, f);
    case Gather(f) => BlameResult(c, s, a);
    case Release(f) => BlameResult(c, s, a);
    case _ => BlameMove(c, s, a);
  }

  lemma {:induction false} BlameRun(c: Config, s: State, run: seq<Action>, t: State)
    requires Blame(c, s) && Inv(c, s) && IsHonestRun(c, s, run, t)
    ensures Blame(c, t)
    decreases |run|
  {
    if run != [] {
      BlameStep(c, s, run[0]);
      InvStep(c, s, run[0]);
      BlameRun(c, Next(c, s, run[0]), run[1..], t);
    }
  }

  /** No group is ever cancelled, and no context error ever returned anywhere, while no
      failure is on record. */
  lemma NoCancellationWithoutFailure(c: Config, run: seq<Action>, t: State)
    requires IsHonestRun(c, Init(c), run, t)
    ensures t.failure.None? ==> t.cancelled == {}
    ensures t.failure.None? ==> forall f | 0 <= f < |t.frames| :: !ErrOf(t.frames[f].pc).Ctx?
  {
    InvInit(c);
    BlameRun(c, Init(c), run, t);
    forall f | 0 <= f < |t.frames| && t.failure.None? ensures !ErrOf(t.frames[f].pc).Ctx? {
      assert Blamed(c, t, t.frames[f].pc);
    }
  }

  /** An operation of the run returned this failure. */
  ghost predicate ReturnedIn(run: seq<Action>, code: nat) {
    exists i :: 0 <= i < |run| && run[i].Finish? && run[i].out == Fail(code)
  }

  lemma {:induction false} RaisedByOperation(c: Config, s: State, run: seq<Action>, t: State, code: nat)
    requires Inv(c, s) && IsHonestRun(c, s, run, t) && code in t.raised
    ensures code in s.raised || ReturnedIn(run, code)
    decreases |run|
  {
    if run != [] {
      var a := run[0];
      var s1 := Next(c, s, a);
      InvStep(c, s, a);
      RaisedByOperation(c, s1, run[1..], t, code);
      if code in s1.raised {
        RaisedByStep(c, s, a, code);
      } else {
        var i :| 0 <= i < |run[1..]| && run[1..][i].Finish? && run[1..][i].out == Fail(code);
        assert run[i + 1] == run[1..][i];
      }
    }
  }

  lemma RaisedByStep(c: Config, s: State, a: Action, code: nat)
    requires Inv(c, s) && Guard(c, s, a) && code in Next(c, s, a).raised
    ensures code in s.raised || (a.Finish? && a.out == Fail(code))
  {
    if a.Ask? && c.mode == KeyThenSlot && OnPath(s, a.f, s.frames[a.f].digest) {
      PathIsClaimed(c, s, a.f, s.frames[a.f].digest);
    }
  }

  /** What a failed run reports is a genuine failure some operation of the run returned,
      and it is the first that was recorded; for a copy one always was. */
  lemma ReportsFirstFailure(c: Config, run: seq<Action>, t: State)
    requires IsHonestRun(c, Init(c), run, t) && Done(t) && !t.frames[0].pc.err.None?
    ensures var told := CauseOf(t.failure, t.frames[0].pc.err);
      told.Fail? && ReturnedIn(run, told.code) && (t.reported != [] ==> told == Fail(t.reported[0]))
    ensures c.mode == KeyThenSlot ==> t.reported != []
  {
    InvInit(c);
    BlameRun(c, Init(c), run, t);
    assert Blamed(c, t, t.frames[0].pc);
    RaisedByOperation(c, Init(c), run, t, CauseOf(t.failure, t.frames[0].pc.err).code);
  }
}
