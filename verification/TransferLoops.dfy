/** When a copy can hang: exactly when the root leads to a reference loop. */
module TransferLoops {
  import opened Graph
  import opened Budgets
  import opened Transfer
  import opened TransferInvariant
  import opened TransferProgress
  import opened TransferWork
  import opened TransferResults
  import opened TransferCause

  /** Not finished, and no frame can take a step. */
  ghost predicate Stuck(c: Config, s: State) {
    !Done(s) && forall a | a != CallerCancels :: !Guard(c, s, a)
  }

  /** A step in which nothing goes wrong. */
  predicate Benign(a: Action) {
    a != CallerCancels && !a.Abandon? && (a.Finish? ==> a.out.None?)
  }

  ghost predicate Clean(s: State) {
    && !s.callerGone && s.cancelled == {}
    && (forall f | 0 <= f < |s.frames| :: ErrOf(s.frames[f].pc).None?)
    && (forall d | d in s.tasks && s.tasks[d].Closed? :: s.tasks[d].err.None?)
  }

  lemma {:induction false} NothingCancelled(s: State, f: nat)
    requires Clean(s) && f < |s.frames|
    ensures !Cancelled(s, f)
    decreases f
  {
    var p := s.frames[f].parent;
    if f > 0 && p < f { NothingCancelled(s, p); }
  }

  lemma CleanMove(c: Config, s: State, a: Action)
    requires Clean(s) && Inv(c, s) && c.mode == KeyThenSlot && Guard(c, s, a) && Benign(a)
    requires !a.Spawn? && !a.Join?
    ensures Clean(Next(c, s, a))
  {
    CleanPc(c, s, a);
    CleanTasks(c, s, a);
    OneFrameMoves(c, s, a);
  }

  lemma CleanTasks(c: Config, s: State, a: Action)
    requires Clean(s) && Guard(c, s, a) && Benign(a) && !a.Spawn? && !a.Join?
    ensures var s' := Next(c, s, a);
      !s'.callerGone && s'.cancelled == {} && forall d | d in s'.tasks && s'.tasks[d].Closed? :: s'.tasks[d].err.None?
  {
    assert ErrOf(s.frames[a.f].pc).None?;
  }

  lemma CleanPc(c: Config, s: State, a: Action)
    requires Clean(s) && Inv(c, s) && c.mode == KeyThenSlot && Guard(c, s, a) && Benign(a)
    requires !a.Spawn? && !a.Join?
    ensures |Next(c, s, a).frames| == |s.frames| && ErrOf(Next(c, s, a).frames[a.f].pc).None?
  {
    NothingCancelled(s, a.f);
    if a.Ask? && OnPath(s, a.f, s.frames[a.f].digest) {
      PathIsClaimed(c, s, a.f, s.frames[a.f].digest);
    }
    assert ErrOf(s.frames[a.f].pc).None?;
  }

  lemma CleanStep(c: Config, s: State, a: Action)
    requires Clean(s) && Inv(c, s) && c.mode == KeyThenSlot && Guard(c, s, a) && Benign(a)
    ensures Clean(Next(c, s, a))
  {
    if a.Spawn? || a.Join? {
      assert ErrOf(s.frames[a.f].pc).None?;
    } else {
      CleanMove(c, s, a);
    }
  }

  lemma RunAppend(c: Config, s: State, run: seq<Action>, t: State, a: Action)
    requires IsRun(c, s, run, t) && Guard(c, t, a)
    ensures IsRun(c, s, run + [a], Next(c, t, a))
    decreases |run|
  {
    if run == [] {
      assert (run + [a])[1..] == [];
    } else {
      assert (run + [a])[1..] == run[1..] + [a];
      RunAppend(c, Next(c, s, run[0]), run[1..], t, a);
    }
  }

  /** A run in which nothing goes wrong. */
  ghost predicate Faultless(run: seq<Action>) {
    forall i | 0 <= i < |run| :: Benign(run[i])
  }

  lemma RunPrepend(c: Config, s: State, a: Action, rest: seq<Action>, t: State)
    requires Guard(c, s, a) && IsRun(c, Next(c, s, a), rest, t)
    ensures IsRun(c, s, [a] + rest, t)
  {
    assert ([a] + rest)[1..] == rest;
  }

  lemma Regrouped(a: seq<Action>, b: seq<Action>, c: seq<Action>)
    ensures a + b + c == a + (b + c)
  {
  }

  /** Keep stepping while nothing goes wrong: every run is finite, so this ends. */
  lemma {:induction false} RunOut(c: Config, run: seq<Action>, s: State) returns (rest: seq<Action>, t: State)
    requires c.mode == KeyThenSlot && IsRun(c, Init(c), run, s) && Inv(c, s) && Clean(s)
    ensures IsRun(c, Init(c), run + rest, t) && IsRun(c, s, rest, t) && Clean(t) && Faultless(rest)
    ensures forall a | Benign(a) :: !Guard(c, t, a)
    decreases StepsLeft(c, s)
  {
    if a :| Benign(a) && Guard(c, s, a) {
      RunAppend(c, Init(c), run, s, a);
      InvStep(c, s, a);
      CleanStep(c, s, a);
      StepCost(c, s, a);
      var more;
      more, t := RunOut(c, run + [a], Next(c, s, a));
      rest := [a] + more;
      RunPrepend(c, s, a, more, t);
      Regrouped(run, [a], more);
    } else {
      rest, t := [], s;
      assert run + [] == run;
    }
  }

  /** Where no benign step is left in a clean state, no step is left at all. */
  lemma CleanEndIsStuck(c: Config, t: State)
    requires Clean(t) && !Done(t) && forall a | Benign(a) :: !Guard(c, t, a)
    ensures Stuck(c, t)
  {
    forall a | a != CallerCancels ensures !Guard(c, t, a) {
      if a.Abandon? && a.f < |t.frames| {
        NothingCancelled(t, a.f);
      } else if a.Finish? {
        assert Benign(Finish(a.f, None));
      }
    }
  }

  /** Only a copy whose root leads to no loop succeeds: the push log would have to put
      each digest of a loop before itself. */
  lemma SuccessIsLoopFree(c: Config, s: State)
    requires Succeeds(c, s)
    ensures LoopFree(c.refs, c.root)
  {
    SuccessIsClosure(c, s);
    ReachableInv(c, s);
    LogExtends(c, s);
    forall d, x | Reaches(c.refs, c.root, d) && x in Out(c.refs, d) ensures !Reaches(c.refs, x, d) {
      var i :| 0 <= i < |s.log| && s.log[i] == d;
      assert LogAt(c, s, i);
      if Reaches(c.refs, x, d) {
        var p :| PathFromTo(c.refs, p, x, d);
        assert IsPath(c.refs, [d] + p);
        ReachedBefore(c.refs, s.log, i, [d] + p);
      }
    }
  }

  /** Over a loop some run hangs, at any limit, with nothing failed and nothing cancelled. */
  lemma LoopHangs(c: Config)
    requires c.mode == KeyThenSlot && !LoopFree(c.refs, c.root)
    ensures exists s :: Reachable(c, s) && Stuck(c, s) && Clean(s)
  {
    InvInit(c);
    var rest, t := RunOut(c, [], Init(c));
    assert Reachable(c, t);
    if Done(t) {
      assert ErrOf(t.frames[0].pc).None?;
      SuccessIsLoopFree(c, t);
    }
    CleanEndIsStuck(c, t);
  }

  lemma LoopFreeRankedFrom(g: Refs, root: Digest) returns (rank: Digest -> nat)
    requires LoopFree(g, root)
    ensures RankedFrom(g, root, rank)
  {
    rank := d => |Below(g, d)|;
    forall d, x | Reaches(g, root, d) && x in Out(g, d) ensures rank(x) < rank(d) {
      LoopFreeRanks(g, root, d, x);
    }
  }

  lemma LoopFreeNeverSticks(c: Config, s: State)
    requires LoopFree(c.refs, c.root) && Reachable(c, s)
    ensures !Stuck(c, s)
  {
    var rank := LoopFreeRankedFrom(c.refs, c.root);
    if !Done(s) { NeverStuck(c, s, rank); }
  }

  /** A copy can hang if and only if its root leads to a reference loop: at every limit
      and under every interleaving it is safe otherwise, failures and cancellation
      included. */
  lemma HangsIffLoop(c: Config)
    requires c.mode == KeyThenSlot
    ensures (exists s :: Reachable(c, s) && Stuck(c, s)) <==> !LoopFree(c.refs, c.root)
  {
    if LoopFree(c.refs, c.root) {
      forall s | Reachable(c, s) ensures !Stuck(c, s) { LoopFreeNeverSticks(c, s); }
    } else {
      LoopHangs(c);
    }
  }
}
