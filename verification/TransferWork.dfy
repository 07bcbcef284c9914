/** The copier's work is linear in the reference graph, not in the routes through
    it: calls, steps and endpoint operations are all bounded by its edges. */
module TransferWork {
  import opened Graph
  import opened Budgets
  import opened Transfer
  import opened TransferInvariant

  // ---------- sums ----------

  function Sum(w: Frame -> nat, frames: seq<Frame>): nat {
    if frames == [] then 0 else Sum(w, frames[..|frames| - 1]) + w(frames[|frames| - 1])
  }

  lemma {:induction false} SumUpdate(w: Frame -> nat, frames: seq<Frame>, f: nat, fr: Frame)
    requires f < |frames|
    ensures Sum(w, frames[f := fr]) + w(frames[f]) == Sum(w, frames) + w(fr)
    decreases |frames|
  {
    var n := |frames| - 1;
    if f == n {
      assert frames[f := fr][..n] == frames[..n];
    } else {
      assert frames[f := fr][..n] == frames[..n][f := fr];
      SumUpdate(w, frames[..n], f, fr);
    }
  }

  lemma SumAppend(w: Frame -> nat, frames: seq<Frame>, fr: Frame)
    ensures Sum(w, frames + [fr]) == Sum(w, frames) + w(fr)
  {
    assert (frames + [fr])[..|frames|] == frames;
  }

  lemma SumSpawn(w: Frame -> nat, frames: seq<Frame>, f: nat, fr: Frame, kid: Frame)
    requires f < |frames|
    ensures Sum(w, frames[f := fr] + [kid]) + w(frames[f]) == Sum(w, frames) + w(fr) + w(kid)
  {
    SumUpdate(w, frames, f, fr);
    SumAppend(w, frames[f := fr], kid);
  }

  lemma SumJoin(w: Frame -> nat, frames: seq<Frame>, f: nat, fr: Frame, p: nat, group: Frame)
    requires p < f < |frames|
    ensures Sum(w, frames[f := fr][p := group]) + w(frames[f]) + w(frames[p]) == Sum(w, frames) + w(fr) + w(group)
  {
    SumUpdate(w, frames, f, fr);
    SumUpdate(w, frames[f := fr], p, group);
  }

  /** References leaving a set of digests, counted with multiplicity. */
  ghost function Edges(g: Refs, ds: set<Digest>): nat {
    if ds == {} then 0
    else
      var d :| d in ds;
      |Out(g, d)| + Edges(g, ds - {d})
  }

  lemma {:induction false} EdgesRemove(g: Refs, ds: set<Digest>, d: Digest)
    requires d in ds
    ensures Edges(g, ds) == |Out(g, d)| + Edges(g, ds - {d})
    decreases ds
  {
    var e :| e in ds && Edges(g, ds) == |Out(g, e)| + Edges(g, ds - {e});
    if e != d {
      EdgesRemove(g, ds - {e}, d);
      EdgesRemove(g, ds - {d}, e);
      assert ds - {e} - {d} == ds - {d} - {e};
    }
  }

  // ---------- the measure ----------

  /** Steps a frame has left, calls below it not counted. */
  function Weight(pc: Pc): nat {
    match pc
    case Entry => 16
    case Asking => 15
    case Waiting => 14
    case SlotCheck(op) => if op == Fetch then 13 else 8
    case SlotSelect(op) => if op == Fetch then 12 else 7
    case Running(op) => if op == Fetch then 11 else 6
    case Releasing(op, _) => if op == Fetch then 10 else 5
    case Fan(_) => 9
    case Finishing(_) => 4
    case Closing(_) => 3
    case Returned(_) => 2
    case Recorded(_) => 1
    case Joined(_) => 0
  }

  /** Calls a frame has yet to make. */
  function Unmade(g: Refs, fr: Frame): nat {
    if (fr.pc.Fan? ||
        ((fr.pc.SlotCheck? || fr.pc.SlotSelect? || fr.pc.Running? || fr.pc.Releasing?) && fr.pc.op == Fetch)) &&
       |fr.kids| <= |Out(g, fr.digest)|
    then |Out(g, fr.digest)| - |fr.kids|
    else 0
  }

  function StepsOf(): Frame -> nat {
    (fr: Frame) => Weight(fr.pc)
  }

  function CallsOf(g: Refs): Frame -> nat {
    (fr: Frame) => Unmade(g, fr)
  }

  /** References of documents nobody has claimed yet. */
  ghost function Pool(c: Config, s: State): nat {
    Edges(c.refs, c.refs.Keys - s.tasks.Keys)
  }

  /** Calls still to be made, at most. */
  ghost function CallsLeft(c: Config, s: State): nat {
    Pool(c, s) + Sum(CallsOf(c.refs), s.frames)
  }

  /** Steps still to be taken, at most. */
  ghost function StepsLeft(c: Config, s: State): nat {
    17 * CallsLeft(c, s) + Sum(StepsOf(), s.frames) + if s.callerGone then 0 else 1
  }

  /** One frame moves and claims nothing. */
  lemma MoveCost(c: Config, s: State, s': State, f: nat)
    requires f < |s.frames| && |s'.frames| == |s.frames| && s'.tasks.Keys == s.tasks.Keys && s'.callerGone == s.callerGone
    requires s'.frames == s.frames[f := s'.frames[f]]
    requires Weight(s'.frames[f].pc) < Weight(s.frames[f].pc)
    requires Unmade(c.refs, s'.frames[f]) <= Unmade(c.refs, s.frames[f])
    ensures StepsLeft(c, s') < StepsLeft(c, s)
    ensures CallsLeft(c, s') <= CallsLeft(c, s)
  {
    SumUpdate(StepsOf(), s.frames, f, s'.frames[f]);
    SumUpdate(CallsOf(c.refs), s.frames, f, s'.frames[f]);
  }

  /** Claiming a document takes its references out of the pool. */
  lemma PoolClaim(c: Config, s: State, s': State, d: Digest)
    requires d !in s.tasks && s'.tasks.Keys == s.tasks.Keys + {d}
    ensures Pool(c, s') + |Out(c.refs, d)| == Pool(c, s)
  {
    var open := c.refs.Keys - s.tasks.Keys;
    assert c.refs.Keys - s'.tasks.Keys == open - {d};
    if d in c.refs {
      EdgesRemove(c.refs, open, d);
    } else {
      assert open - {d} == open;
    }
  }

  /** One frame moves and claims the task of its digest. */
  lemma ClaimPays(c: Config, s: State, s': State, f: nat)
    requires f < |s.frames| == |s'.frames| && s'.frames == s.frames[f := s'.frames[f]]
    requires s.frames[f].digest !in s.tasks && s'.tasks.Keys == s.tasks.Keys + {s.frames[f].digest}
    requires Weight(s'.frames[f].pc) < Weight(s.frames[f].pc) && s'.callerGone == s.callerGone
    requires Unmade(c.refs, s'.frames[f]) <= |Out(c.refs, s.frames[f].digest)|
    ensures StepsLeft(c, s') < StepsLeft(c, s) && CallsLeft(c, s') <= CallsLeft(c, s)
  {
    PoolClaim(c, s, s', s.frames[f].digest);
    SumUpdate(StepsOf(), s.frames, f, s'.frames[f]);
    SumUpdate(CallsOf(c.refs), s.frames, f, s'.frames[f]);
  }

  lemma ClaimCost(c: Config, s: State, f: nat)
    requires c.mode == KeyThenSlot && Guard(c, s, Ask(f)) && s.frames[f].digest !in s.tasks
    ensures StepsLeft(c, Next(c, s, Ask(f))) < StepsLeft(c, s)
    ensures CallsLeft(c, Next(c, s, Ask(f))) <= CallsLeft(c, s)
  {
    OneFrameMoves(c, s, Ask(f));
    ClaimPays(c, s, Next(c, s, Ask(f)), f);
  }

  lemma SpawnCost(c: Config, s: State, f: nat)
    requires Guard(c, s, Spawn(f)) && Shape(c, s.frames)
    ensures StepsLeft(c, Next(c, s, Spawn(f))) < StepsLeft(c, s)
    ensures CallsLeft(c, Next(c, s, Spawn(f))) + 1 <= CallsLeft(c, s)
  {
    var frames' := Next(c, s, Spawn(f)).frames;
    var kid := frames'[|s.frames|];
    SpawnMoves(c, s, f);
    SumSpawn(StepsOf(), s.frames, f, frames'[f], kid);
    SumSpawn(CallsOf(c.refs), s.frames, f, frames'[f], kid);
  }

  /** A call and the group that called it move together. */
  lemma JoinPays(c: Config, s: State, s': State, f: nat, p: nat)
    requires p < f < |s.frames| == |s'.frames| && s'.tasks == s.tasks && s'.callerGone == s.callerGone
    requires s.frames[f].pc.Recorded? && s.frames[p].pc.Fan? && s'.frames[p].pc.Fan?
    requires s'.frames == s.frames[f := s.frames[f].(pc := Joined(s.frames[f].pc.err))]
                                  [p := s.frames[p].(pc := s'.frames[p].pc)]
    ensures StepsLeft(c, s') < StepsLeft(c, s) && CallsLeft(c, s') == CallsLeft(c, s)
  {
    var done := s.frames[f].(pc := Joined(s.frames[f].pc.err));
    SumJoin(StepsOf(), s.frames, f, done, p, s'.frames[p]);
    SumJoin(CallsOf(c.refs), s.frames, f, done, p, s'.frames[p]);
  }

  lemma JoinCost(c: Config, s: State, f: nat)
    requires Guard(c, s, Join(f))
    ensures StepsLeft(c, Next(c, s, Join(f))) < StepsLeft(c, s)
    ensures CallsLeft(c, Next(c, s, Join(f))) <= CallsLeft(c, s)
  {
    JoinMoves(c, s, f);
    JoinPays(c, s, Next(c, s, Join(f)), f, s.frames[f].parent);
  }

  /** Every step is paid for, and every call made comes out of those left. */
  lemma StepCost(c: Config, s: State, a: Action)
    requires c.mode == KeyThenSlot && Inv(c, s) && Guard(c, s, a)
    ensures StepsLeft(c, Next(c, s, a)) < StepsLeft(c, s)
    ensures |Next(c, s, a).frames| + CallsLeft(c, Next(c, s, a)) <= |s.frames| + CallsLeft(c, s)
  {
    if a == CallerCancels {
    } else if a.Spawn? {
      SpawnCost(c, s, a.f);
    } else if a.Join? {
      JoinCost(c, s, a.f);
    } else if a.Ask? && s.frames[a.f].digest !in s.tasks {
      ClaimCost(c, s, a.f);
    } else {
      QuietCost(c, s, a);
    }
  }

  lemma QuietTasks(c: Config, s: State, a: Action)
    requires Data(c, s) && Guard(c, s, a)
    requires a != CallerCancels && !a.Spawn? && !a.Join? && !(a.Ask? && s.frames[a.f].digest !in s.tasks)
    ensures Next(c, s, a).tasks.Keys == s.tasks.Keys && Next(c, s, a).callerGone == s.callerGone
  {
    assert FrameData(c, s, a.f);
  }

  lemma QuietWeight(c: Config, s: State, a: Action)
    requires c.mode == KeyThenSlot && Guard(c, s, a)
    requires a != CallerCancels && !a.Spawn? && !a.Join? && !(a.Ask? && s.frames[a.f].digest !in s.tasks)
    ensures |Next(c, s, a).frames| == |s.frames|
    ensures Weight(Next(c, s, a).frames[a.f].pc) < Weight(s.frames[a.f].pc)
  {
    if a.Ask? || a.Acquire? || a.Finish? || a.Release? || a.Gather? {
      WorkWeight(c, s, a);
    }
  }

  lemma WorkWeight(c: Config, s: State, a: Action)
    requires c.mode == KeyThenSlot && Guard(c, s, a) && (a.Ask? ==> s.frames[a.f].digest in s.tasks)
    requires a.Ask? || a.Acquire? || a.Finish? || a.Release? || a.Gather?
    ensures |Next(c, s, a).frames| == |s.frames|
    ensures Weight(Next(c, s, a).frames[a.f].pc) < Weight(s.frames[a.f].pc)
  {
  }

  lemma QuietUnmade(c: Config, s: State, a: Action)
    requires c.mode == KeyThenSlot && Guard(c, s, a)
    requires a != CallerCancels && !a.Spawn? && !a.Join? && !(a.Ask? && s.frames[a.f].digest !in s.tasks)
    requires Moves(s, Next(c, s, a), a.f)
    ensures Unmade(c.refs, Next(c, s, a).frames[a.f]) <= Unmade(c.refs, s.frames[a.f])
  {
    if a.Acquire? || a.Finish? || a.Release? || a.Gather? {
      WorkUnmade(c, s, a);
    }
  }

  lemma WorkUnmade(c: Config, s: State, a: Action)
    requires c.mode == KeyThenSlot && Guard(c, s, a) && (a.Acquire? || a.Finish? || a.Release? || a.Gather?)
    requires Moves(s, Next(c, s, a), a.f)
    ensures Unmade(c.refs, Next(c, s, a).frames[a.f]) <= Unmade(c.refs, s.frames[a.f])
  {
  }

  lemma QuietCost(c: Config, s: State, a: Action)
    requires c.mode == KeyThenSlot && Data(c, s) && Guard(c, s, a)
    requires a != CallerCancels && !a.Spawn? && !a.Join? && !(a.Ask? && s.frames[a.f].digest !in s.tasks)
    ensures StepsLeft(c, Next(c, s, a)) < StepsLeft(c, s)
    ensures |Next(c, s, a).frames| == |s.frames| && CallsLeft(c, Next(c, s, a)) <= CallsLeft(c, s)
  {
    OneFrameMoves(c, s, a);
    QuietTasks(c, s, a);
    QuietWeight(c, s, a);
    QuietUnmade(c, s, a);
    MoveCost(c, s, Next(c, s, a), a.f);
  }

  lemma {:induction false} RunCost(c: Config, s: State, run: seq<Action>, t: State)
    requires c.mode == KeyThenSlot && Inv(c, s) && IsRun(c, s, run, t)
    ensures |run| + StepsLeft(c, t) <= StepsLeft(c, s)
    ensures |t.frames| + CallsLeft(c, t) <= |s.frames| + CallsLeft(c, s)
    decreases |run|
  {
    if run != [] {
      StepCost(c, s, run[0]);
      InvStep(c, s, run[0]);
      RunCost(c, Next(c, s, run[0]), run[1..], t);
    }
  }

  /** At most 17 steps for each reference plus the root, and one call for each. */
  lemma EdgeWork(c: Config, run: seq<Action>, t: State)
    requires c.mode == KeyThenSlot && IsRun(c, Init(c), run, t)
    ensures |run| <= 17 * (1 + Edges(c.refs, c.refs.Keys))
    ensures |t.frames| <= 1 + Edges(c.refs, c.refs.Keys)
  {
    var s := Init(c);
    assert s.frames[..0] == [];
    assert Sum(StepsOf(), s.frames) == Sum(StepsOf(), s.frames[..0]) + 16;
    assert Sum(CallsOf(c.refs), s.frames) == Sum(CallsOf(c.refs), s.frames[..0]) + 0;
    assert c.refs.Keys - s.tasks.Keys == c.refs.Keys;
    InvInit(c);
    RunCost(c, s, run, t);
  }

  // ---------- endpoint operations ----------

  /** Operations not started yet by the owner of a task. */
  ghost predicate Unbegun(m: Discipline, pc: Pc, op: Op) {
    Owns(m, pc) && m == KeyThenSlot &&
    (((pc.SlotCheck? || pc.SlotSelect?) && (pc.op == op || (op == Push && pc.op == Fetch))) ||
     (op == Push && (pc.Fan? || ((pc.Running? || pc.Releasing?) && pc.op == Fetch))))
  }

  ghost predicate Counted(c: Config, s: State) {
    && s.starts == |s.begun|
    && (forall op, d | (op, d) in s.begun :: d in s.tasks)
    && (forall f, op | 0 <= f < |s.frames| && Unbegun(c.mode, s.frames[f].pc, op) :: (op, s.frames[f].digest) !in s.begun)
  }

  /** Another frame on f's digest does not own its task while f does or nobody does. */
  lemma OtherOwners(c: Config, s: State, f: nat)
    requires Data(c, s) && f < |s.frames|
    requires Owns(c.mode, s.frames[f].pc) || s.frames[f].digest !in s.tasks
    ensures forall g | 0 <= g < |s.frames| && g != f && s.frames[g].digest == s.frames[f].digest ::
      !Owns(c.mode, s.frames[g].pc)
  {
    assert FrameData(c, s, f);
    forall g | 0 <= g < |s.frames| && g != f && s.frames[g].digest == s.frames[f].digest
      ensures !Owns(c.mode, s.frames[g].pc)
    {
      assert FrameData(c, s, g);
    }
  }

  lemma CountedAcquire(c: Config, s: State, f: nat)
    requires Data(c, s) && Counted(c, s) && Guard(c, s, Acquire(f))
    ensures Counted(c, Next(c, s, Acquire(f)))
  {
    assert FrameData(c, s, f);
    if c.mode == KeyThenSlot {
      var op := s.frames[f].pc.op;
      assert Unbegun(c.mode, s.frames[f].pc, op);
      OtherOwners(c, s, f);
    }
  }

  lemma CountedAsk(c: Config, s: State, f: nat)
    requires Data(c, s) && Counted(c, s) && Guard(c, s, Ask(f))
    ensures Counted(c, Next(c, s, Ask(f)))
  {
    if s.frames[f].digest in s.tasks {
      CountedWait(c, s, f);
    } else {
      CountedClaim(c, s, f);
    }
  }

  lemma CountedWait(c: Config, s: State, f: nat)
    requires Counted(c, s) && Guard(c, s, Ask(f)) && s.frames[f].digest in s.tasks
    ensures Counted(c, Next(c, s, Ask(f)))
  {
  }

  lemma CountedClaim(c: Config, s: State, f: nat)
    requires Data(c, s) && Counted(c, s) && Guard(c, s, Ask(f)) && s.frames[f].digest !in s.tasks
    ensures Counted(c, Next(c, s, Ask(f)))
  {
    OneFrameMoves(c, s, Ask(f));
    ClaimBegins(c, s, f);
    if c.mode == KeyThenSlot {
      CountedClaimed(c, s, Next(c, s, Ask(f)), f);
    } else {
      CountedUpload(c, s, Next(c, s, Ask(f)), f);
    }
  }

  /** With the claim, a pack's push begins; a copy begins nothing yet. */
  lemma ClaimBegins(c: Config, s: State, f: nat)
    requires Guard(c, s, Ask(f)) && s.frames[f].digest !in s.tasks
    ensures var s' := Next(c, s, Ask(f)); var push := c.mode == SlotThenKey;
      && s'.tasks.Keys == s.tasks.Keys + {s.frames[f].digest}
      && s'.begun == (if push then s.begun + {(Push, s.frames[f].digest)} else s.begun)
      && s'.starts == (if push then s.starts + 1 else s.starts)
  {
  }

  /** A frame that claims its digest and has begun nothing. */
  lemma CountedClaimed(c: Config, s: State, s': State, f: nat)
    requires Counted(c, s) && Moves(s, s', f) && s.frames[f].digest !in s.tasks && s.tasks.Keys <= s'.tasks.Keys
    requires s'.begun == s.begun && s'.starts == s.starts
    ensures Counted(c, s')
  {
  }

  /** A pack's frame that claims its digest begins the push at once. */
  lemma CountedUpload(c: Config, s: State, s': State, f: nat)
    requires c.mode == SlotThenKey && Counted(c, s) && Moves(s, s', f) && s.frames[f].digest !in s.tasks
    requires s'.tasks.Keys == s.tasks.Keys + {s.frames[f].digest}
    requires s'.begun == s.begun + {(Push, s.frames[f].digest)} && s'.starts == s.starts + 1
    ensures Counted(c, s')
  {
    assert (Push, s.frames[f].digest) !in s.begun;
  }

  /** One frame moves and starts no operation. */
  lemma CountedMove(c: Config, s: State, s': State, f: nat)
    requires Counted(c, s) && Moves(s, s', f) && s.tasks.Keys <= s'.tasks.Keys
    requires s'.begun == s.begun && s'.starts == s.starts
    requires forall op | Unbegun(c.mode, s'.frames[f].pc, op) :: Unbegun(c.mode, s.frames[f].pc, op)
    ensures Counted(c, s')
  {
  }

  lemma StartsNothing(c: Config, s: State, a: Action)
    requires Guard(c, s, a) && a != CallerCancels && !a.Ask? && !a.Acquire?
    ensures var s' := Next(c, s, a); s'.begun == s.begun && s'.starts == s.starts && s.tasks.Keys <= s'.tasks.Keys
  {
  }

  /** What a frame has not begun after such a move it had not begun before. */
  lemma StaysUnbegun(c: Config, s: State, a: Action, op: Op)
    requires Guard(c, s, a) && a != CallerCancels && !a.Ask? && !a.Acquire? && !a.Spawn? && !a.Join?
    requires Moves(s, Next(c, s, a), a.f) && Unbegun(c.mode, Next(c, s, a).frames[a.f].pc, op)
    ensures Unbegun(c.mode, s.frames[a.f].pc, op)
  {
  }

  /** Moves that start no operation. */
  lemma CountedQuiet(c: Config, s: State, a: Action)
    requires Counted(c, s) && Guard(c, s, a)
    requires a != CallerCancels && !a.Ask? && !a.Acquire? && !a.Spawn? && !a.Join?
    ensures Counted(c, Next(c, s, a))
  {
    OneFrameMoves(c, s, a);
    StartsNothing(c, s, a);
    forall op | Unbegun(c.mode, Next(c, s, a).frames[a.f].pc, op) ensures Unbegun(c.mode, s.frames[a.f].pc, op) {
      StaysUnbegun(c, s, a, op);
    }
    CountedMove(c, s, Next(c, s, a), a.f);
  }

  lemma CountedStep(c: Config, s: State, a: Action)
    requires Data(c, s) && Counted(c, s) && Guard(c, s, a)
    ensures Counted(c, Next(c, s, a))
  {
    if a == CallerCancels || a.Spawn? || a.Join? {
    } else if a.Ask? {
      CountedAsk(c, s, a.f);
    } else if a.Acquire? {
      CountedAcquire(c, s, a.f);
    } else {
      CountedQuiet(c, s, a);
    }
  }

  lemma {:induction false} CountedRun(c: Config, s: State, run: seq<Action>, t: State)
    requires Inv(c, s) && Counted(c, s) && IsRun(c, s, run, t)
    ensures Counted(c, t)
    decreases |run|
  {
    if run != [] {
      InvStep(c, s, run[0]);
      CountedStep(c, s, run[0]);
      CountedRun(c, Next(c, s, run[0]), run[1..], t);
    }
  }

  lemma PairsOfKeys(begun: set<(Op, Digest)>, ds: set<Digest>)
    requires forall op, d | (op, d) in begun :: d in ds
    ensures |begun| <= 2 * |ds|
    decreases ds
  {
    if ds == {} {
      forall p: (Op, Digest) ensures p !in begun { assert p == (p.0, p.1); }
      assert begun == {};
    } else {
      var d :| d in ds;
      var rest := begun - {(Fetch, d), (Push, d)};
      forall op, e | (op, e) in rest ensures e in ds - {d} {
        assert op == Fetch || op == Push;
      }
      PairsOfKeys(rest, ds - {d});
      assert begun <= rest + {(Fetch, d), (Push, d)};
      assert |{(Fetch, d), (Push, d)}| == 2;
      CardinalityMonotone(begun, rest + {(Fetch, d), (Push, d)});
    }
  }

  /** Each key starts each operation at most once; so operations started under a key
      (for the copier, everything asked of the source) are at most two per digest. */
  lemma AtMostTwicePerDigest(c: Config, s: State)
    requires Reachable(c, s)
    ensures s.starts == |s.begun| <= 2 * |s.tasks|
    ensures forall i, j | 0 <= i < j < |s.log| :: s.log[i] != s.log[j]
  {
    var run :| IsRun(c, Init(c), run, s);
    InvInit(c);
    CountedRun(c, Init(c), run, s);
    PairsOfKeys(s.begun, s.tasks.Keys);
    InvRun(c, Init(c), run, s);
    forall i, j | 0 <= i < j < |s.log| ensures s.log[i] != s.log[j] {
      assert LogAt(c, s, j);
      assert s.log[..j][i] == s.log[i];
    }
  }
}
