/** Only what the root leads to matters to a run: what other documents refer to, loops
    included, changes nothing. So what holds over ranked references holds for every root
    that leads to no loop. */
module TransferRoot {
  import opened Graph
  import opened Budgets
  import opened Transfer
  import opened TransferInvariant
  import opened TransferProgress
  import opened TransferWork
  import opened TransferResults
  import opened TransferCause
  import opened TransferLoops
  import opened TransferSerial

  /** The documents the root leads to. */
  ghost function Under(g: Refs, root: Digest): Refs {
    map d | d in g && Reaches(g, root, d) :: g[d]
  }

  ghost function Rooted(c: Config): Config {
    c.(refs := Under(c.refs, c.root))
  }

  lemma RankUnder(g: Refs, root: Digest) returns (rank: Digest -> nat)
    requires LoopFree(g, root)
    ensures Ranked(Under(g, root), rank)
  {
    rank := LoopFreeRankedFrom(g, root);
  }

  // ---------- references that are alike ----------

  /** The references agree where a step looks at them: at the frames that fan out, and for a frame that
      asks at whether it is a document. */
  ghost predicate Alike(c: Config, c': Config, s: State, a: Action) {
    && c'.mode == c.mode && c'.limit == c.limit
    && (forall f | 0 <= f < |s.frames| && s.frames[f].pc.Fan? :: Kids(c', s, f) == Kids(c, s, f))
    && (a.Ask? && a.f < |s.frames| ==> (s.frames[a.f].digest in c'.refs <==> s.frames[a.f].digest in c.refs))
  }

  lemma AlikeGuard(c: Config, c': Config, s: State, a: Action)
    requires Alike(c, c', s, a) && Guard(c, s, a)
    ensures Guard(c', s, a)
  {
    if a.Spawn? || a.Gather? { assert Kids(c', s, a.f) == Kids(c, s, a.f); }
  }

  lemma AlikeNext(c: Config, c': Config, s: State, a: Action)
    requires Alike(c, c', s, a) && Guard(c, s, a) && Guard(c', s, a)
    ensures Next(c', s, a) == Next(c, s, a)
  {
    if a.Join? {
      assert Kids(c', s, s.frames[a.f].parent) == Kids(c, s, s.frames[a.f].parent);
    } else if a.Spawn? {
      assert Kids(c', s, a.f) == Kids(c, s, a.f);
    } else {
      AlikePlain(c, c', s, a);
    }
  }

  lemma AlikePlain(c: Config, c': Config, s: State, a: Action)
    requires Alike(c, c', s, a) && Guard(c, s, a) && Guard(c', s, a) && !a.Join? && !a.Spawn?
    ensures Next(c', s, a) == Next(c, s, a)
  {
  }

  /** A run over what the root leads to. */
  lemma RootedAlike(c: Config, s: State, a: Action)
    requires FromRoot(c, s)
    ensures Alike(c, Rooted(c), s, a)
  {
    forall f | 0 <= f < |s.frames|
      ensures Kids(Rooted(c), s, f) == Kids(c, s, f)
      ensures s.frames[f].digest in Rooted(c).refs <==> s.frames[f].digest in c.refs
    {
    }
  }

  lemma {:induction false} SameRun(c: Config, s: State, run: seq<Action>, t: State)
    requires Inv(c, s) && IsRun(c, s, run, t)
    ensures IsRun(Rooted(c), s, run, t)
    decreases |run|
  {
    if run != [] {
      RootedAlike(c, s, run[0]);
      AlikeGuard(c, Rooted(c), s, run[0]);
      AlikeNext(c, Rooted(c), s, run[0]);
      InvStep(c, s, run[0]);
      SameRun(c, Next(c, s, run[0]), run[1..], t);
    }
  }

  lemma SameReachable(c: Config, t: State)
    requires Reachable(c, t)
    ensures Reachable(Rooted(c), t)
  {
    var run :| IsRun(c, Init(c), run, t);
    InvInit(c);
    SameRun(c, Init(c), run, t);
    assert IsRun(Rooted(c), Init(Rooted(c)), run, t);
  }

  // ---------- the order of a copy ----------

  /** At a limit of 1, every successful copy pushes in exactly first-visit post-order:
      config, layers and subject of a manifest, members of an index, then the document. */
  lemma SerialIsPostOrder(c: Config, t: State) returns (rank: Digest -> nat)
    requires c.mode == KeyThenSlot && c.limit <= 1 && Succeeds(c, t)
    ensures Ranked(Under(c.refs, c.root), rank) && t.log == Visit(Under(c.refs, c.root), rank, [], c.root)
  {
    SuccessIsLoopFree(c, t);
    rank := RankUnder(c.refs, c.root);
    SameReachable(c, t);
    RankedPostOrder(Rooted(c), rank, t);
  }

  /** So a copy at any limit lands exactly what the sequential walk pushes. */
  lemma ParallelAgreesWithWalk(c: Config, t: State, serial: Config, u: State) returns (rank: Digest -> nat)
    requires Succeeds(c, t) && serial == c.(limit := 1, mode := KeyThenSlot) && Succeeds(serial, u)
    ensures Ranked(Under(c.refs, c.root), rank)
    ensures var walk := Visit(Under(c.refs, c.root), rank, [], c.root);
      t.dst == u.dst == c.before + Elems(walk) && multiset(t.log) == multiset(walk)
  {
    rank := SerialIsPostOrder(serial, u);
    ScheduleIndependent(c, t, serial, u);
    ReachableInv(serial, u);
  }

  // ---------- the work of a copy ----------

  /** Any run of a copy is finite: at most 17 steps for each reference below the root plus the
      root, and one call for each, however many routes lead to a digest. */
  lemma LinearWork(c: Config, run: seq<Action>, t: State)
    requires c.mode == KeyThenSlot && IsRun(c, Init(c), run, t)
    ensures var below := Under(c.refs, c.root);
      |run| <= 17 * (1 + Edges(below, below.Keys)) && |t.frames| <= 1 + Edges(below, below.Keys)
  {
    InvInit(c);
    SameRun(c, Init(c), run, t);
    EdgeWork(Rooted(c), run, t);
  }

  // ---------- a run in which nothing goes wrong ----------

  lemma {:induction false} FaultlessIsClean(c: Config, s: State, run: seq<Action>, t: State)
    requires c.mode == KeyThenSlot && Inv(c, s) && Clean(s) && IsRun(c, s, run, t) && Faultless(run)
    ensures Clean(t)
    decreases |run|
  {
    if run != [] {
      CleanStep(c, s, run[0]);
      InvStep(c, s, run[0]);
      assert forall i | 0 <= i < |run[1..]| :: run[1..][i] == run[i + 1];
      FaultlessIsClean(c, Next(c, s, run[0]), run[1..], t);
    }
  }

  /** A copy in which no operation fails and nobody cancels succeeds, whenever it has come to its end and
      whatever the destination held, if its root leads to no loop; and it always comes to its end. */
  lemma FaultlessSucceeds(c: Config, run: seq<Action>, t: State)
    requires c.mode == KeyThenSlot && LoopFree(c.refs, c.root)
    requires IsRun(c, Init(c), run, t) && Faultless(run) && forall a | Benign(a) :: !Guard(c, t, a)
    ensures Succeeds(c, t)
  {
    InvInit(c);
    FaultlessIsClean(c, Init(c), run, t);
    if !Done(t) {
      CleanEndIsStuck(c, t);
      LoopFreeNeverSticks(c, t);
    }
    assert ErrOf(t.frames[0].pc).None?;
  }

  /** It comes to its end from wherever it has got to. */
  lemma FaultlessEnds(c: Config, run: seq<Action>, s: State) returns (rest: seq<Action>, t: State)
    requires c.mode == KeyThenSlot && LoopFree(c.refs, c.root) && IsRun(c, Init(c), run, s) && Faultless(run)
    ensures IsRun(c, Init(c), run + rest, t) && Faultless(run + rest) && Succeeds(c, t)
  {
    InvInit(c);
    InvRun(c, Init(c), run, s);
    FaultlessIsClean(c, Init(c), run, s);
    rest, t := RunOut(c, run, s);
    FaultlessSucceeds(c, run + rest, t);
  }

  /** So a rerun in which nothing goes wrong, on what any failed or interrupted attempts left, ends where
      one clean run ends. */
  lemma RerunEndsClean(c: Config, clean: State, again: Config, run: seq<Action>, resumed: State)
    requires again.refs == c.refs && again.root == c.root && Leftover(c, again.before) && again.mode == KeyThenSlot
    requires Succeeds(c, clean)
    requires IsRun(again, Init(again), run, resumed) && Faultless(run) && forall a | Benign(a) :: !Guard(again, resumed, a)
    ensures Succeeds(again, resumed) && resumed.dst == clean.dst
  {
    SuccessIsLoopFree(c, clean);
    FaultlessSucceeds(again, run, resumed);
    RerunResumes(c, clean, again, resumed);
  }
}
