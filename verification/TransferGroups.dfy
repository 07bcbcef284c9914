/** What one failure does to the calls beside it: the group's context is cancelled, and with it that of
    everything below (Each in internal/parallel/budget.go). */
module TransferGroups {
  import opened Graph
  import opened Budgets
  import opened Transfer
  import opened TransferInvariant
  import opened TransferCause
  import opened TransferSerial
  import opened TransferLoops

  /** The fan-out runs its calls side by side: two of them or more, and two allowed at a time. */
  predicate SideBySide(c: Config, s: State, p: nat)
    requires p < |s.frames|
  {
    c.limit >= 2 && |Out(c.refs, s.frames[p].digest)| >= 2
  }

  /** One of its calls has come back with an error. */
  ghost predicate HasFailed(s: State, p: nat)
    requires p < |s.frames|
  {
    exists f :: 0 <= f < |s.frames| && f > 0 && s.frames[f].parent == p && FailedCall(s.frames[f])
  }

  predicate FailedCall(fr: Frame) {
    fr.pc.Joined? && !fr.pc.err.None?
  }

  ghost predicate GroupAt(c: Config, s: State, p: nat)
    requires p < |s.frames|
  {
    p in s.cancelled <==> SideBySide(c, s, p) && HasFailed(s, p)
  }

  ghost predicate Groups(c: Config, s: State) {
    && (forall p | p in s.cancelled :: p < |s.frames|)
    && (forall p | 0 <= p < |s.frames| :: GroupAt(c, s, p))
  }

  lemma GroupsSpawn(c: Config, s: State, f: nat)
    requires Inv(c, s) && Groups(c, s) && Guard(c, s, Spawn(f))
    ensures Groups(c, Next(c, s, Spawn(f)))
  {
    var t, n := Next(c, s, Spawn(f)), |s.frames|;
    SpawnMoves(c, s, f);
    forall g | 0 < g < n ensures t.frames[g].parent == s.frames[g].parent < g && FailedCall(t.frames[g]) == FailedCall(s.frames[g]) {
      assert ShapeAt(c, s.frames, g);
    }
    forall p | 0 <= p < |t.frames| ensures GroupAt(c, t, p) {
      if p < n { assert GroupAt(c, s, p); }
    }
  }

  lemma GroupsJoin(c: Config, s: State, f: nat)
    requires Inv(c, s) && Groups(c, s) && Guard(c, s, Join(f))
    ensures Groups(c, Next(c, s, Join(f)))
  {
    var t, parent := Next(c, s, Join(f)), s.frames[f].parent;
    JoinMoves(c, s, f);
    forall g | 0 <= g < |s.frames|
      ensures t.frames[g].parent == s.frames[g].parent && t.frames[g].digest == s.frames[g].digest
      ensures FailedCall(t.frames[g]) <==> if g == f then !s.frames[f].pc.err.None? else FailedCall(s.frames[g])
    {
    }
    forall p | 0 <= p < |t.frames| ensures GroupAt(c, t, p) {
      assert GroupAt(c, s, p);
      if p == parent && !s.frames[f].pc.err.None? { assert FailedCall(t.frames[f]); }
    }
  }

  /** Only a join cancels a group. */
  lemma CancelledStays(c: Config, s: State, a: Action)
    requires Guard(c, s, a) && !a.Join?
    ensures Next(c, s, a).cancelled == s.cancelled
  {
  }

  /** Only a join ends a call, and an ended call takes no step. */
  lemma EndedTakesNoStep(c: Config, s: State, a: Action)
    requires Guard(c, s, a) && a != CallerCancels && !a.Spawn? && !a.Join?
    ensures !s.frames[a.f].pc.Joined?
  {
  }

  lemma OnlyJoinEnds(c: Config, s: State, a: Action)
    requires Guard(c, s, a) && a != CallerCancels && !a.Spawn? && !a.Join?
    ensures a.f < |Next(c, s, a).frames| && !Next(c, s, a).frames[a.f].pc.Joined?
  {
  }

  lemma GroupsSame(c: Config, s: State, t: State)
    requires Groups(c, s) && t.cancelled == s.cancelled && |t.frames| == |s.frames|
    requires forall g | 0 <= g < |s.frames| ::
      t.frames[g].parent == s.frames[g].parent && t.frames[g].digest == s.frames[g].digest &&
      FailedCall(t.frames[g]) == FailedCall(s.frames[g])
    ensures Groups(c, t)
  {
    forall p | 0 <= p < |t.frames| ensures GroupAt(c, t, p) { assert GroupAt(c, s, p); }
  }

  lemma GroupsElse(c: Config, s: State, a: Action)
    requires Inv(c, s) && Groups(c, s) && Guard(c, s, a) && !a.Spawn? && !a.Join?
    ensures Groups(c, Next(c, s, a))
  {
    var t := Next(c, s, a);
    if a != CallerCancels {
      OneFrameMoves(c, s, a);
      EndedTakesNoStep(c, s, a);
      OnlyJoinEnds(c, s, a);
    }
    CancelledStays(c, s, a);
    GroupsSame(c, s, t);
  }

  lemma {:induction false} GroupsRun(c: Config, s: State, run: seq<Action>, t: State)
    requires Inv(c, s) && Groups(c, s) && IsRun(c, s, run, t)
    ensures Groups(c, t)
    decreases |run|
  {
    if run != [] {
      if run[0].Spawn? {
        GroupsSpawn(c, s, run[0].f);
      } else if run[0].Join? {
        GroupsJoin(c, s, run[0].f);
      } else {
        GroupsElse(c, s, run[0]);
      }
      InvStep(c, s, run[0]);
      GroupsRun(c, Next(c, s, run[0]), run[1..], t);
    }
  }

  /** In every reachable state a group is cancelled if and only if its calls run side by side and one of them has
      come back with an error. */
  lemma CancelledIffFailed(c: Config, s: State, p: nat)
    requires Reachable(c, s) && p < |s.frames|
    ensures p in s.cancelled <==> SideBySide(c, s, p) && HasFailed(s, p)
  {
    var run :| IsRun(c, Init(c), run, s);
    InvInit(c);
    assert Groups(c, Init(c));
    GroupsRun(c, Init(c), run, s);
    assert GroupAt(c, s, p);
  }

  /** A call that another one is part of, at any depth. */
  ghost predicate Below(s: State, f: nat, p: nat)
    requires f < |s.frames|
    decreases f
  {
    var up := s.frames[f].parent;
    f > 0 && up < f && (up == p || Below(s, up, p))
  }

  lemma {:induction false} BelowIsCancelled(s: State, f: nat, p: nat)
    requires f < |s.frames| && Below(s, f, p) && p in s.cancelled
    ensures Cancelled(s, f)
    decreases f
  {
    if s.frames[f].parent != p { BelowIsCancelled(s, s.frames[f].parent, p); }
  }

  /** From then on no call of the group, and none below it, takes another slot that it has not looked for yet, a
      copy that is entered turns back, and whoever waits can leave. */
  lemma FailedGroupStops(c: Config, s: State, p: nat, f: nat)
    requires Reachable(c, s) && p < |s.frames| && SideBySide(c, s, p) && HasFailed(s, p)
    requires f < |s.frames| && Below(s, f, p)
    ensures !Guard(c, s, Pass(f))
    ensures c.mode == KeyThenSlot && Guard(c, s, Enter(f)) ==> Next(c, s, Enter(f)).frames[f].pc == Returned(Ctx)
    ensures s.frames[f].pc.Waiting? || s.frames[f].pc.SlotCheck? || s.frames[f].pc.SlotSelect? ==> Guard(c, s, Abandon(f))
  {
    CancelledIffFailed(c, s, p);
    BelowIsCancelled(s, f, p);
  }

  /** And the cancellation of the caller stops them all. */
  lemma CallerStops(c: Config, s: State, f: nat)
    requires Reachable(c, s) && f < |s.frames| && s.callerGone
    ensures !Guard(c, s, Pass(f))
    ensures c.mode == KeyThenSlot && Guard(c, s, Enter(f)) ==> Next(c, s, Enter(f)).frames[f].pc == Returned(Ctx)
  {
    ReachableInv(c, s);
    GoneIsCancelled(c, s, f);
  }

  lemma {:induction false} GoneIsCancelled(c: Config, s: State, f: nat)
    requires f < |s.frames| && s.callerGone
    ensures Cancelled(s, f)
    decreases f
  {
    var p := s.frames[f].parent;
    if f != 0 && p < f && p !in s.cancelled { GoneIsCancelled(c, s, p); }
  }

  /** The error a group reports is that of the first of its calls to come back with one, whatever the others come
      back with: a call that carries an error carries it to its end. */
  lemma {:induction false} FirstErrorIsKept(c: Config, s: State, run: seq<Action>, t: State, f: nat)
    requires IsRun(c, s, run, t) && f < |s.frames| && !ErrOf(s.frames[f].pc).None?
    ensures f < |t.frames| && ErrOf(t.frames[f].pc) == ErrOf(s.frames[f].pc)
    decreases |run|
  {
    if run != [] {
      ErrorStays(c, s, run[0], f);
      FirstErrorIsKept(c, Next(c, s, run[0]), run[1..], t, f);
    }
  }

  /** So does a call whose own operation fails, of a copy or of a pack: it ends with what the operation returned. */
  lemma FailureIsReturned(c: Config, s: State, f: nat, out: Err, run: seq<Action>, t: State)
    requires Guard(c, s, Finish(f, out)) && !out.None? && IsRun(c, Next(c, s, Finish(f, out)), run, t)
    ensures f < |t.frames| && ErrOf(t.frames[f].pc) == out
  {
    FirstErrorIsKept(c, Next(c, s, Finish(f, out)), run, t, f);
  }

  // ---------- failure and cancellation do come about ----------

  lemma RootRuns(c: Config) returns (run: seq<Action>, t: State)
    requires c.mode == KeyThenSlot
    ensures IsRun(c, Init(c), run, t) && |t.frames| == 1 && t.frames[0].pc.Running? && t.frames[0].digest == c.root
    ensures t.failure == None && c.root in t.tasks
  {
    var s := Init(c);
    assert Holders(c.mode, s.frames[..0]) == 0;
    run, t := [], s;
    RunAppend(c, s, run, t, Enter(0));
    run, t := run + [Enter(0)], Next(c, t, Enter(0));
    RunAppend(c, s, run, t, Ask(0));
    run, t := run + [Ask(0)], Next(c, t, Ask(0));
    RunAppend(c, s, run, t, Pass(0));
    run, t := run + [Pass(0)], Next(c, t, Pass(0));
    assert t.frames[..0] == [];
    RunAppend(c, s, run, t, Acquire(0));
    run, t := run + [Acquire(0)], Next(c, t, Acquire(0));
  }

  lemma RootFails(c: Config, code: nat) returns (run: seq<Action>, t: State)
    requires c.mode == KeyThenSlot
    ensures IsRun(c, Init(c), run, t) && |t.frames| == 1 && t.frames[0].pc == Finishing(Fail(code))
    ensures t.failure == None && t.frames[0].digest in t.tasks
  {
    run, t := RootRuns(c);
    RunAppend(c, Init(c), run, t, Finish(0, Fail(code)));
    run, t := run + [Finish(0, Fail(code))], Next(c, t, Finish(0, Fail(code)));
    RunAppend(c, Init(c), run, t, Release(0));
    run, t := run + [Release(0)], Next(c, t, Release(0));
  }

  /** Whatever is copied, and whatever an endpoint may come back with: some copy ends with just that. */
  lemma AnyFailureEnds(c: Config, code: nat) returns (t: State)
    requires c.mode == KeyThenSlot
    ensures Reachable(c, t) && Done(t) && t.frames[0].pc == Returned(Fail(code)) && t.failure == Fail(code)
  {
    var run;
    run, t := RootFails(c, code);
    RunAppend(c, Init(c), run, t, Note(0));
    run, t := run + [Note(0)], Next(c, t, Note(0));
    RunAppend(c, Init(c), run, t, Close(0));
    run, t := run + [Close(0)], Next(c, t, Close(0));
  }

  /** And a caller who has cancelled before it starts is told just that, with nothing copied. */
  lemma CancelledBeforeStart(c: Config) returns (t: State)
    requires c.mode == KeyThenSlot
    ensures Reachable(c, t) && Done(t) && t.frames[0].pc == Returned(Ctx) && t.dst == c.before && t.failure == None
  {
    var s := Init(c);
    var gone := Next(c, s, CallerCancels);
    t := Next(c, gone, Enter(0));
    assert IsRun(c, s, [], s);
    RunAppend(c, s, [], s, CallerCancels);
    RunAppend(c, s, [] + [CallerCancels], gone, Enter(0));
  }
}
