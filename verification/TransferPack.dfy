/** A pack's runs are finite too. Its calls share nothing but uploads, so they are counted along
    the routes of the pack: every item and manifest as often as it is listed. */
module TransferPack {
  import opened Graph
  import opened Budgets
  import opened Transfer
  import opened TransferInvariant
  import opened TransferWork
  import opened TransferRoot

  /** The calls a pack of d makes: its own, and those of all it lists. */
  ghost function Calls(g: Refs, rank: Digest -> nat, d: Digest): nat
    requires Ranked(g, rank)
    decreases rank(d), 1, 0
  {
    1 + CallsOfAll(g, rank, rank(d), Out(g, d))
  }

  ghost function CallsOfAll(g: Refs, rank: Digest -> nat, bound: nat, ds: seq<Digest>): nat
    requires Ranked(g, rank) && forall x | x in ds :: rank(x) < bound
    decreases bound, 0, |ds|
  {
    if ds == [] then 0 else Calls(g, rank, ds[0]) + CallsOfAll(g, rank, bound, ds[1..])
  }

  /** Steps a pack's frame has left, calls below it not counted. */
  function PackWeight(pc: Pc): nat {
    match pc
    case Entry => 12
    case Fan(_) => 11
    case SlotCheck(_) => 10
    case SlotSelect(_) => 9
    case Running(op) => if op == Fetch then 8 else 6
    case Asking => 7
    case Waiting => 5
    case Finishing(_) => 5
    case Closing(_) => 4
    case Releasing(_, _) => 3
    case Returned(_) => 2
    case Recorded(_) => 1
    case Joined(_) => 0
  }

  /** Calls below a frame that are still to be made. */
  ghost function Owed(g: Refs, rank: Digest -> nat, fr: Frame): nat
    requires Ranked(g, rank)
  {
    var out := Out(g, fr.digest);
    if (fr.pc.Entry? || fr.pc.Fan?) && |fr.kids| <= |out|
    then CallsOfAll(g, rank, rank(fr.digest), out[|fr.kids|..])
    else 0
  }

  ghost function WeightOf(): Frame -> nat {
    (fr: Frame) => PackWeight(fr.pc)
  }

  ghost function OwedOf(g: Refs, rank: Digest -> nat): Frame -> nat
    requires Ranked(g, rank)
  {
    (fr: Frame) => Owed(g, rank, fr)
  }

  ghost function CallsDue(c: Config, rank: Digest -> nat, s: State): nat
    requires Ranked(c.refs, rank)
  {
    Sum(OwedOf(c.refs, rank), s.frames)
  }

  ghost function StepsDue(c: Config, rank: Digest -> nat, s: State): nat
    requires Ranked(c.refs, rank)
  {
    13 * CallsDue(c, rank, s) + Sum(WeightOf(), s.frames) + if s.callerGone then 0 else 1
  }

  /** One frame moves. */
  lemma PackMove(c: Config, rank: Digest -> nat, s: State, s': State, f: nat)
    requires Ranked(c.refs, rank) && f < |s.frames| && |s'.frames| == |s.frames| && s'.callerGone == s.callerGone
    requires s'.frames == s.frames[f := s'.frames[f]]
    requires PackWeight(s'.frames[f].pc) < PackWeight(s.frames[f].pc)
    requires Owed(c.refs, rank, s'.frames[f]) <= Owed(c.refs, rank, s.frames[f])
    ensures StepsDue(c, rank, s') < StepsDue(c, rank, s) && CallsDue(c, rank, s') <= CallsDue(c, rank, s)
  {
    SumUpdate(WeightOf(), s.frames, f, s'.frames[f]);
    SumUpdate(OwedOf(c.refs, rank), s.frames, f, s'.frames[f]);
  }

  lemma PackWeightFalls(c: Config, s: State, a: Action)
    requires c.mode == SlotThenKey && Guard(c, s, a) && a != CallerCancels && !a.Spawn? && !a.Join?
    requires Moves(s, Next(c, s, a), a.f)
    ensures PackWeight(Next(c, s, a).frames[a.f].pc) < PackWeight(s.frames[a.f].pc)
  {
    if a.Ask? || a.Acquire? || a.Finish? || a.Release? || a.Gather? {
      PackWorkFalls(c, s, a);
    }
  }

  lemma PackWorkFalls(c: Config, s: State, a: Action)
    requires c.mode == SlotThenKey && Guard(c, s, a)
    requires a.Ask? || a.Acquire? || a.Finish? || a.Release? || a.Gather?
    requires Moves(s, Next(c, s, a), a.f)
    ensures PackWeight(Next(c, s, a).frames[a.f].pc) < PackWeight(s.frames[a.f].pc)
  {
  }

  /** A pack's frame lists its calls first thing. */
  lemma PackFansFirst(c: Config, s: State, a: Action)
    requires c.mode == SlotThenKey && Guard(c, s, a) && a != CallerCancels && !a.Spawn? && !a.Join?
    requires Moves(s, Next(c, s, a), a.f)
    ensures Next(c, s, a).frames[a.f].pc.Entry? || Next(c, s, a).frames[a.f].pc.Fan? ==> s.frames[a.f].pc.Entry?
  {
  }

  lemma PackQuiet(c: Config, rank: Digest -> nat, s: State, a: Action)
    requires Ranked(c.refs, rank) && c.mode == SlotThenKey && Guard(c, s, a)
    requires a != CallerCancels && !a.Spawn? && !a.Join?
    ensures StepsDue(c, rank, Next(c, s, a)) < StepsDue(c, rank, s)
    ensures |Next(c, s, a).frames| == |s.frames| && CallsDue(c, rank, Next(c, s, a)) <= CallsDue(c, rank, s)
  {
    OneFrameMoves(c, s, a);
    PackWeightFalls(c, s, a);
    PackFansFirst(c, s, a);
    CallerStays(c, s, a);
    PackMove(c, rank, s, Next(c, s, a), a.f);
  }

  lemma CallerStays(c: Config, s: State, a: Action)
    requires Guard(c, s, a) && a != CallerCancels
    ensures Next(c, s, a).callerGone == s.callerGone
  {
  }

  /** What a caller owes for its next call is what that call comes to. */
  lemma NextCall(g: Refs, rank: Digest -> nat, fr: Frame, n: nat, kid: Frame)
    requires Ranked(g, rank) && fr.pc.Fan? && |fr.kids| < |Out(g, fr.digest)|
    requires kid.digest == Out(g, fr.digest)[|fr.kids|] && kid.kids == [] && kid.pc.Entry?
    ensures Owed(g, rank, fr.(kids := fr.kids + [n])) + Calls(g, rank, kid.digest) == Owed(g, rank, fr)
    ensures 1 + Owed(g, rank, kid) == Calls(g, rank, kid.digest)
  {
    var rest := Out(g, fr.digest)[|fr.kids|..];
    assert rest[0] == kid.digest && rest[1..] == Out(g, fr.digest)[|fr.kids| + 1..];
    assert Out(g, kid.digest)[0..] == Out(g, kid.digest);
  }

  /** The next call is made: it is paid for out of those its caller owed. */
  lemma PackSpawn(c: Config, rank: Digest -> nat, s: State, f: nat)
    requires Ranked(c.refs, rank) && Guard(c, s, Spawn(f))
    ensures var s' := Next(c, s, Spawn(f));
      StepsDue(c, rank, s') < StepsDue(c, rank, s)
      && |s'.frames| + CallsDue(c, rank, s') == |s.frames| + CallsDue(c, rank, s)
  {
    var fr, n := s.frames[f], |s.frames|;
    var kid := Frame(Out(c.refs, fr.digest)[|fr.kids|], f, |fr.kids|, [], Entry);
    var fr' := fr.(kids := fr.kids + [n]);
    SpawnMoves(c, s, f);
    NextCall(c.refs, rank, fr, n, kid);
    SumSpawn(WeightOf(), s.frames, f, fr', kid);
    SumSpawn(OwedOf(c.refs, rank), s.frames, f, fr', kid);
  }

  /** A call and the group that called it move together. */
  lemma PackJoins(c: Config, rank: Digest -> nat, s: State, s': State, f: nat, p: nat)
    requires Ranked(c.refs, rank) && p < f < |s.frames| == |s'.frames| && s'.callerGone == s.callerGone
    requires s.frames[f].pc.Recorded? && s.frames[p].pc.Fan? && s'.frames[p].pc.Fan?
    requires s'.frames == s.frames[f := s.frames[f].(pc := Joined(s.frames[f].pc.err))]
                                  [p := s.frames[p].(pc := s'.frames[p].pc)]
    ensures StepsDue(c, rank, s') < StepsDue(c, rank, s) && CallsDue(c, rank, s') == CallsDue(c, rank, s)
  {
    var done := s.frames[f].(pc := Joined(s.frames[f].pc.err));
    SumJoin(WeightOf(), s.frames, f, done, p, s'.frames[p]);
    SumJoin(OwedOf(c.refs, rank), s.frames, f, done, p, s'.frames[p]);
  }

  lemma PackJoin(c: Config, rank: Digest -> nat, s: State, f: nat)
    requires Ranked(c.refs, rank) && Guard(c, s, Join(f))
    ensures var s' := Next(c, s, Join(f));
      StepsDue(c, rank, s') < StepsDue(c, rank, s)
      && |s'.frames| == |s.frames| && CallsDue(c, rank, s') == CallsDue(c, rank, s)
  {
    JoinMoves(c, s, f);
    PackJoins(c, rank, s, Next(c, s, Join(f)), f, s.frames[f].parent);
  }

  lemma PackStep(c: Config, rank: Digest -> nat, s: State, a: Action)
    requires Ranked(c.refs, rank) && c.mode == SlotThenKey && Guard(c, s, a)
    ensures StepsDue(c, rank, Next(c, s, a)) < StepsDue(c, rank, s)
    ensures |Next(c, s, a).frames| + CallsDue(c, rank, Next(c, s, a)) <= |s.frames| + CallsDue(c, rank, s)
  {
    if a == CallerCancels {
    } else if a.Spawn? {
      PackSpawn(c, rank, s, a.f);
    } else if a.Join? {
      PackJoin(c, rank, s, a.f);
    } else {
      PackQuiet(c, rank, s, a);
    }
  }

  lemma {:induction false} PackRun(c: Config, rank: Digest -> nat, s: State, run: seq<Action>, t: State)
    requires Ranked(c.refs, rank) && c.mode == SlotThenKey && IsRun(c, s, run, t)
    ensures |run| + StepsDue(c, rank, t) <= StepsDue(c, rank, s)
    ensures |t.frames| + CallsDue(c, rank, t) <= |s.frames| + CallsDue(c, rank, s)
    decreases |run|
  {
    if run != [] {
      PackStep(c, rank, s, run[0]);
      PackRun(c, rank, Next(c, s, run[0]), run[1..], t);
    }
  }

  /** Any run of a pack is finite: at most 13 steps for each of its calls. With deadlock freedom, every
      pack that keeps stepping ends. */
  lemma PackWork(c: Config, run: seq<Action>, t: State) returns (rank: Digest -> nat)
    requires c.mode == SlotThenKey && LoopFree(c.refs, c.root) && IsRun(c, Init(c), run, t)
    ensures Ranked(Under(c.refs, c.root), rank)
    ensures |run| <= 13 * Calls(Under(c.refs, c.root), rank, c.root)
    ensures |t.frames| <= Calls(Under(c.refs, c.root), rank, c.root)
  {
    rank := RankUnder(c.refs, c.root);
    InvInit(c);
    SameRun(c, Init(c), run, t);
    var r := Rooted(c);
    PackRun(r, rank, Init(r), run, t);
    StartDue(r, rank);
  }

  lemma StartDue(c: Config, rank: Digest -> nat)
    requires Ranked(c.refs, rank)
    ensures StepsDue(c, rank, Init(c)) == 13 * Calls(c.refs, rank, c.root)
    ensures 1 + CallsDue(c, rank, Init(c)) == Calls(c.refs, rank, c.root)
  {
    var frames := Init(c).frames;
    assert frames[..0] == [];
    assert Sum(WeightOf(), frames) == Sum(WeightOf(), frames[..0]) + 12;
    assert Out(c.refs, c.root)[0..] == Out(c.refs, c.root);
    assert Sum(OwedOf(c.refs, rank), frames) == Sum(OwedOf(c.refs, rank), frames[..0]) + Owed(c.refs, rank, frames[0]);
  }
}
