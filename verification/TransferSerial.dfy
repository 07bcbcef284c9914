/** At a limit of 1 a copy is the sequential walk: first-visit post-order. */
module TransferSerial {
  import opened Graph
  import opened Budgets
  import opened Transfer
  import opened TransferInvariant
  import opened TransferResults
  import opened TransferCause

  // ---------- the sequential walk ----------

  /** First-visit post-order: what d references, in order, then d; nothing twice. */
  ghost function Visit(g: Refs, rank: Digest -> nat, log: seq<Digest>, d: Digest): seq<Digest>
    requires Ranked(g, rank)
    decreases rank(d), 1, 0
  {
    if d in log then log else VisitAll(g, rank, rank(d), log, Out(g, d)) + [d]
  }

  ghost function VisitAll(g: Refs, rank: Digest -> nat, bound: nat, log: seq<Digest>, ds: seq<Digest>): seq<Digest>
    requires Ranked(g, rank) && forall x | x in ds :: rank(x) < bound
    decreases bound, 0, |ds|
  {
    if ds == [] then log else VisitAll(g, rank, bound, Visit(g, rank, log, ds[0]), ds[1..])
  }

  /** A walk only ever adds to the log. */
  lemma {:induction false} VisitExtends(g: Refs, rank: Digest -> nat, log: seq<Digest>, d: Digest)
    requires Ranked(g, rank)
    ensures log <= Visit(g, rank, log, d)
    ensures d in Visit(g, rank, log, d)
    decreases rank(d), 1, 0
  {
    if d !in log {
      VisitAllExtends(g, rank, rank(d), log, Out(g, d));
      var all := VisitAll(g, rank, rank(d), log, Out(g, d));
      assert (all + [d])[|all|] == d;
    }
  }

  lemma {:induction false} VisitAllExtends(g: Refs, rank: Digest -> nat, bound: nat, log: seq<Digest>, ds: seq<Digest>)
    requires Ranked(g, rank) && forall x | x in ds :: rank(x) < bound
    ensures log <= VisitAll(g, rank, bound, log, ds)
    decreases bound, 0, |ds|
  {
    if ds != [] {
      VisitExtends(g, rank, log, ds[0]);
      VisitAllExtends(g, rank, bound, Visit(g, rank, log, ds[0]), ds[1..]);
    }
  }

  // ---------- errors do not go away ----------

  ghost predicate AllClean(s: State) {
    forall f | 0 <= f < |s.frames| :: ErrOf(s.frames[f].pc).None?
  }

  lemma ErrorStaysInGroup(c: Config, s: State, a: Action, f: nat)
    requires Guard(c, s, a) && (a == CallerCancels || a.Spawn? || a.Join?)
    requires f < |s.frames| && !ErrOf(s.frames[f].pc).None?
    ensures f < |Next(c, s, a).frames| && ErrOf(Next(c, s, a).frames[f].pc) == ErrOf(s.frames[f].pc)
  {
  }

  /** The frame of any other step: where it carried an error, it still does. */
  lemma ErrorStaysInFrame(c: Config, s: State, a: Action)
    requires Guard(c, s, a) && a != CallerCancels && !a.Spawn? && !a.Join?
    requires !ErrOf(s.frames[a.f].pc).None?
    ensures a.f < |Next(c, s, a).frames| && ErrOf(Next(c, s, a).frames[a.f].pc) == ErrOf(s.frames[a.f].pc)
  {
  }

  /** A frame that carries an error carries it ever after: a group's is the first of its calls to come back with one. */
  lemma ErrorStays(c: Config, s: State, a: Action, f: nat)
    requires Guard(c, s, a) && f < |s.frames| && !ErrOf(s.frames[f].pc).None?
    ensures f < |Next(c, s, a).frames| && ErrOf(Next(c, s, a).frames[f].pc) == ErrOf(s.frames[f].pc)
  {
    if a == CallerCancels || a.Spawn? || a.Join? {
      ErrorStaysInGroup(c, s, a, f);
    } else {
      OneFrameMoves(c, s, a);
      if f == a.f { ErrorStaysInFrame(c, s, a); }
    }
  }

  lemma CleanBefore(c: Config, s: State, a: Action)
    requires Guard(c, s, a) && AllClean(Next(c, s, a))
    ensures AllClean(s)
  {
    forall f | 0 <= f < |s.frames| ensures ErrOf(s.frames[f].pc).None? {
      if !ErrOf(s.frames[f].pc).None? { ErrorStays(c, s, a, f); }
    }
  }

  lemma {:induction false} CleanStart(c: Config, s: State, run: seq<Action>, t: State)
    requires IsRun(c, s, run, t) && AllClean(t)
    ensures AllClean(s)
    decreases |run|
  {
    if run != [] {
      CleanStart(c, Next(c, s, run[0]), run[1..], t);
      CleanBefore(c, s, run[0]);
    }
  }

  /** A call past its Each without an error: everything it called succeeded. */
  ghost predicate KidsClean(frames: seq<Frame>, f: nat)
    requires f < |frames|
  {
    !frames[f].pc.Fan? && ErrOf(frames[f].pc).None? ==>
      forall k | k in frames[f].kids :: k < |frames| && frames[k].pc == Joined(None)
  }

  ghost predicate CleanKids(s: State) {
    forall f | 0 <= f < |s.frames| :: KidsClean(s.frames, f)
  }

  lemma CleanKidsLocal(frames: seq<Frame>, f: nat, pc: Pc)
    requires f < |frames| && !frames[f].pc.Joined?
    requires forall g | 0 <= g < |frames| :: KidsClean(frames, g)
    requires !pc.Fan? && ErrOf(pc).None? ==>
      (!frames[f].pc.Fan? && ErrOf(frames[f].pc).None?) ||
      forall k | k in frames[f].kids :: k < |frames| && frames[k].pc == Joined(None)
    ensures var frames' := frames[f := frames[f].(pc := pc)];
      forall g | 0 <= g < |frames'| :: KidsClean(frames', g)
  {
    var frames' := frames[f := frames[f].(pc := pc)];
    forall g | 0 <= g < |frames| ensures KidsClean(frames', g) {
      assert KidsClean(frames, g);
    }
  }

  lemma CleanKidsSpawn(c: Config, s: State, f: nat)
    requires CleanKids(s) && Guard(c, s, Spawn(f))
    ensures CleanKids(Next(c, s, Spawn(f)))
  {
    var s' := Next(c, s, Spawn(f));
    forall g | 0 <= g < |s'.frames| ensures KidsClean(s'.frames, g) {
      if g < |s.frames| { assert KidsClean(s.frames, g); }
    }
  }

  lemma CleanKidsGather(c: Config, s: State, f: nat)
    requires CleanKids(s) && Shape(c, s.frames) && Guard(c, s, Gather(f))
    ensures CleanKids(Next(c, s, Gather(f)))
  {
    if s.frames[f].pc.failed.None? {
      assert ShapeAt(c, s.frames, f);
      forall k | k in s.frames[f].kids ensures k < |s.frames| && s.frames[k].pc == Joined(None) {
        var j :| 0 <= j < |s.frames[f].kids| && s.frames[f].kids[j] == k;
      }
    }
    CleanKidsLocal(s.frames, f, Next(c, s, Gather(f)).frames[f].pc);
  }

  lemma CleanKidsJoin(c: Config, s: State, f: nat)
    requires CleanKids(s) && Guard(c, s, Join(f))
    ensures CleanKids(Next(c, s, Join(f)))
  {
    var s' := Next(c, s, Join(f));
    var p := s.frames[f].parent;
    assert KidsClean(s.frames, f);
    forall g | 0 <= g < |s'.frames| ensures KidsClean(s'.frames, g) {
      assert KidsClean(s.frames, g);
    }
  }

  lemma CleanKidsStep(c: Config, s: State, a: Action)
    requires CleanKids(s) && Inv(c, s) && Guard(c, s, a)
    ensures CleanKids(Next(c, s, a))
  {
    if a == CallerCancels {
    } else if a.Spawn? {
      CleanKidsSpawn(c, s, a.f);
    } else if a.Gather? {
      CleanKidsGather(c, s, a.f);
    } else if a.Join? {
      CleanKidsJoin(c, s, a.f);
    } else {
      CleanKidsQuiet(c, s, a);
    }
  }

  lemma CleanKidsQuiet(c: Config, s: State, a: Action)
    requires CleanKids(s) && Guard(c, s, a)
    requires a != CallerCancels && !a.Spawn? && !a.Gather? && !a.Join?
    ensures CleanKids(Next(c, s, a))
  {
    var pc := Next(c, s, a).frames[a.f].pc;
    OneFrameMoves(c, s, a);
    if !ErrOf(s.frames[a.f].pc).None? { ErrorStays(c, s, a, a.f); }
    CleanKidsLocal(s.frames, a.f, pc);
  }

  lemma {:induction false} CleanKidsRun(c: Config, s: State, run: seq<Action>, t: State)
    requires CleanKids(s) && Inv(c, s) && IsRun(c, s, run, t)
    ensures CleanKids(t) && Inv(c, t)
    decreases |run|
  {
    if run != [] {
      CleanKidsStep(c, s, run[0]);
      InvStep(c, s, run[0]);
      CleanKidsRun(c, Next(c, s, run[0]), run[1..], t);
    }
  }

  /** Once the root has succeeded, every call made succeeded. */
  lemma {:induction false} SuccessIsClean(c: Config, t: State, f: nat)
    requires CleanKids(t) && Inv(c, t) && t.frames[0].pc == Returned(None) && f < |t.frames|
    ensures f > 0 ==> t.frames[f].pc == Joined(None)
    decreases f
  {
    if f > 0 {
      assert ShapeAt(c, t.frames, f);
      var p := t.frames[f].parent;
      SuccessIsClean(c, t, p);
      assert KidsClean(t.frames, p);
      assert t.frames[p].kids[t.frames[f].pos] in t.frames[p].kids;
    }
  }

  // ---------- one frame at a time ----------

  /** What the log becomes once a waiting or finished-with-its-calls-so-far Each and
      its frame complete. */
  ghost function VisitRest(c: Config, rank: Digest -> nat, fr: Frame, log: seq<Digest>): seq<Digest>
    requires Ranked(c.refs, rank)
  {
    var out := Out(c.refs, fr.digest);
    VisitAll(c.refs, rank, rank(fr.digest), log, if |fr.kids| <= |out| then out[|fr.kids|..] else []) + [fr.digest]
  }

  /** What the log becomes once the running frame completes. */
  ghost function After(c: Config, rank: Digest -> nat, fr: Frame, log: seq<Digest>): seq<Digest>
    requires Ranked(c.refs, rank)
  {
    match fr.pc
    case Entry => Visit(c.refs, rank, log, fr.digest)
    case Asking => Visit(c.refs, rank, log, fr.digest)
    case Waiting => Visit(c.refs, rank, log, fr.digest)
    case SlotCheck(op) => if op == Fetch then VisitRest(c, rank, fr, log) else log + [fr.digest]
    case SlotSelect(op) => if op == Fetch then VisitRest(c, rank, fr, log) else log + [fr.digest]
    case Running(op) => if op == Fetch then VisitRest(c, rank, fr, log) else log + [fr.digest]
    case Releasing(op, _) => if op == Fetch then VisitRest(c, rank, fr, log) else log
    case Fan(_) => VisitRest(c, rank, fr, log)
    case _ => log
  }

  /** What the log becomes once the frames above the running one complete too. */
  ghost function Remaining(c: Config, rank: Digest -> nat, frames: seq<Frame>, f: nat, log: seq<Digest>): seq<Digest>
    requires Ranked(c.refs, rank) && f < |frames|
    decreases f
  {
    var p := frames[f].parent;
    if f == 0 || p >= f then log else Remaining(c, rank, frames, p, VisitRest(c, rank, frames[p], log))
  }

  lemma {:induction false} RemainingSame(c: Config, rank: Digest -> nat, frames: seq<Frame>, frames': seq<Frame>,
                                         f: nat, log: seq<Digest>)
    requires Ranked(c.refs, rank) && f < |frames| && f < |frames'| && frames'[f].parent == frames[f].parent
    requires forall g | 0 <= g < f :: frames'[g] == frames[g]
    ensures Remaining(c, rank, frames', f, log) == Remaining(c, rank, frames, f, log)
    decreases f
  {
    var p := frames[f].parent;
    if f != 0 && p < f {
      RemainingSame(c, rank, frames, frames', p, VisitRest(c, rank, frames[p], log));
    }
  }

  /** A call below g is still open. */
  ghost predicate Awaits(frames: seq<Frame>, g: nat)
    requires g < |frames|
  {
    exists k :: k in frames[g].kids && k < |frames| && !frames[k].pc.Joined?
  }

  /** The call f is the innermost: any other that is open waits for one of its own. */
  ghost predicate Innermost(frames: seq<Frame>, f: nat) {
    && f < |frames| && !frames[f].pc.Joined?
    && forall g | 0 <= g < |frames| && g != f && !frames[g].pc.Joined? :: frames[g].pc == Fan(None) && Awaits(frames, g)
  }

  ghost predicate Serial(c: Config, rank: Digest -> nat, s: State, f: nat)
    requires Ranked(c.refs, rank)
  {
    Innermost(s.frames, f) &&
    Remaining(c, rank, s.frames, f, After(c, rank, s.frames[f], s.log)) == Visit(c.refs, rank, [], c.root)
  }

  /** At a limit of 1 only the innermost call can move. */
  lemma OnlyTopMoves(c: Config, s: State, f: nat, a: Action)
    requires c.limit <= 1 && Innermost(s.frames, f) && Guard(c, s, a) && a != CallerCancels
    ensures a.f == f
  {
    if a.f != f {
      assert false;
    }
  }

  lemma InnermostStays(frames: seq<Frame>, frames': seq<Frame>, f: nat)
    requires Innermost(frames, f) && |frames'| == |frames| && !frames'[f].pc.Joined?
    requires frames' == frames[f := frames[f].(pc := frames'[f].pc)]
    ensures Innermost(frames', f)
  {
    forall g | 0 <= g < |frames'| && g != f && !frames'[g].pc.Joined? ensures Awaits(frames', g) {
      assert Awaits(frames, g);
    }
  }

  /** A step of the innermost call that stays the innermost. */
  lemma SerialLocal(c: Config, rank: Digest -> nat, s: State, s': State, f: nat)
    requires Ranked(c.refs, rank) && Serial(c, rank, s, f) && Moves(s, s', f) && !s'.frames[f].pc.Joined?
    requires After(c, rank, s'.frames[f], s'.log) == After(c, rank, s.frames[f], s.log)
    ensures Serial(c, rank, s', f)
  {
    InnermostStays(s.frames, s'.frames, f);
    RemainingSame(c, rank, s.frames, s'.frames, f, After(c, rank, s.frames[f], s.log));
  }

  /** The next reference of the innermost call becomes the innermost call. */
  lemma InnermostPush(frames: seq<Frame>, frames': seq<Frame>, f: nat)
    requires Innermost(frames, f) && frames[f].pc == Fan(None) && |frames'| == |frames| + 1
    requires frames'[f] == frames[f].(kids := frames[f].kids + [|frames|]) && frames'[|frames|].pc == Entry
    requires forall g | 0 <= g < |frames| && g != f :: frames'[g] == frames[g]
    ensures Innermost(frames', |frames|)
  {
    forall g | 0 <= g < |frames| && !frames'[g].pc.Joined? ensures Awaits(frames', g) {
      if g == f {
        assert frames'[f].kids[|frames[f].kids|] == |frames|;
      } else {
        assert Awaits(frames, g);
      }
    }
  }

  lemma VisitNext(c: Config, rank: Digest -> nat, fr: Frame, n: nat, log: seq<Digest>)
    requires Ranked(c.refs, rank) && |fr.kids| < |Out(c.refs, fr.digest)|
    ensures VisitRest(c, rank, fr.(kids := fr.kids + [n]), Visit(c.refs, rank, log, Out(c.refs, fr.digest)[|fr.kids|]))
      == VisitRest(c, rank, fr, log)
  {
    var rest := Out(c.refs, fr.digest)[|fr.kids|..];
    assert rest[1..] == Out(c.refs, fr.digest)[|fr.kids| + 1..];
  }

  lemma RemainingPush(c: Config, rank: Digest -> nat, frames: seq<Frame>, frames': seq<Frame>, f: nat, log: seq<Digest>)
    requires Ranked(c.refs, rank) && f < |frames| && |frames'| == |frames| + 1
    requires |frames[f].kids| < |Out(c.refs, frames[f].digest)|
    requires frames'[f] == frames[f].(kids := frames[f].kids + [|frames|]) && frames'[|frames|].parent == f
    requires forall g | 0 <= g < f :: frames'[g] == frames[g]
    ensures Remaining(c, rank, frames', |frames|, Visit(c.refs, rank, log, Out(c.refs, frames[f].digest)[|frames[f].kids|]))
      == Remaining(c, rank, frames, f, VisitRest(c, rank, frames[f], log))
  {
    VisitNext(c, rank, frames[f], |frames|, log);
    RemainingSame(c, rank, frames, frames', f, VisitRest(c, rank, frames[f], log));
  }

  lemma SerialSpawn(c: Config, rank: Digest -> nat, s: State, f: nat)
    requires Ranked(c.refs, rank) && Serial(c, rank, s, f) && Guard(c, s, Spawn(f)) && s.frames[f].pc == Fan(None)
    ensures Serial(c, rank, Next(c, s, Spawn(f)), |s.frames|)
  {
    var s' := Next(c, s, Spawn(f));
    SpawnMoves(c, s, f);
    InnermostPush(s.frames, s'.frames, f);
    RemainingPush(c, rank, s.frames, s'.frames, f, s.log);
  }

  /** The innermost call is over and its caller becomes the innermost. */
  lemma InnermostPop(c: Config, frames: seq<Frame>, frames': seq<Frame>, f: nat)
    requires Shape(c, frames) && Innermost(frames, f) && 0 < f && frames[f].parent < f
    requires frames' == frames[f := frames[f].(pc := Joined(None))]
    ensures frames[frames[f].parent].pc == Fan(None) && Innermost(frames', frames[f].parent)
  {
    var p := frames[f].parent;
    assert ShapeAt(c, frames, f);
    forall g | 0 <= g < |frames'| && g != p && !frames'[g].pc.Joined? ensures Awaits(frames', g) {
      assert Awaits(frames, g) && ShapeAt(c, frames, g);
      var k :| k in frames[g].kids && k < |frames| && !frames[k].pc.Joined?;
      var j :| 0 <= j < |frames[g].kids| && frames[g].kids[j] == k;
      assert KidOk(c, frames, g, j);
      assert k in frames'[g].kids;
    }
  }

  /** A call that joins without an error leaves its caller's group without one. */
  lemma JoinsClean(c: Config, s: State, f: nat)
    requires Guard(c, s, Join(f)) && s.frames[f].pc == Recorded(None) && s.frames[s.frames[f].parent].pc == Fan(None)
    ensures var s' := Next(c, s, Join(f));
      s'.log == s.log && s'.frames == s.frames[f := s.frames[f].(pc := Joined(None))]
  {
  }

  lemma SerialJoin(c: Config, rank: Digest -> nat, s: State, f: nat)
    requires Ranked(c.refs, rank) && Shape(c, s.frames) && Serial(c, rank, s, f)
    requires Guard(c, s, Join(f)) && s.frames[f].pc == Recorded(None)
    ensures Serial(c, rank, Next(c, s, Join(f)), s.frames[f].parent)
  {
    assert s.frames[s.frames[f].parent].pc == Fan(None);
    JoinsClean(c, s, f);
    SerialPop(c, rank, s, Next(c, s, Join(f)), f);
  }

  lemma SerialPop(c: Config, rank: Digest -> nat, s: State, s': State, f: nat)
    requires Ranked(c.refs, rank) && Shape(c, s.frames) && Serial(c, rank, s, f)
    requires 0 < f && s.frames[f].parent < f && s.frames[f].pc == Recorded(None)
    requires s'.log == s.log && s'.frames == s.frames[f := s.frames[f].(pc := Joined(None))]
    ensures Serial(c, rank, s', s.frames[f].parent)
  {
    InnermostPop(c, s.frames, s'.frames, f);
    RemainingPop(c, rank, s.frames, s'.frames, f, s.log);
  }

  lemma RemainingPop(c: Config, rank: Digest -> nat, frames: seq<Frame>, frames': seq<Frame>, f: nat, log: seq<Digest>)
    requires Ranked(c.refs, rank) && 0 < f < |frames| == |frames'| && frames[f].parent < f
    requires forall g | 0 <= g < f :: frames'[g] == frames[g]
    ensures var p := frames[f].parent;
      Remaining(c, rank, frames', p, VisitRest(c, rank, frames'[p], log)) == Remaining(c, rank, frames, f, log)
  {
    var p := frames[f].parent;
    RemainingSame(c, rank, frames, frames', p, VisitRest(c, rank, frames[p], log));
  }

  /** What the innermost call still owes does not change as it goes. */
  lemma SameAfter(c: Config, rank: Digest -> nat, s: State, a: Action)
    requires Ranked(c.refs, rank) && c.mode == KeyThenSlot && Inv(c, s) && Guard(c, s, a)
    requires a.Enter? || a.Abandon? || a.Pass? || a.Note? || a.Close? || a.Report?
    requires ErrOf(s.frames[a.f].pc).None? && ErrOf(Next(c, s, a).frames[a.f].pc).None?
    ensures After(c, rank, Next(c, s, a).frames[a.f], Next(c, s, a).log) == After(c, rank, s.frames[a.f], s.log)
  {
  }

  lemma SameAfterSlot(c: Config, rank: Digest -> nat, s: State, a: Action)
    requires Ranked(c.refs, rank) && c.mode == KeyThenSlot && Guard(c, s, a) && (a.Acquire? || a.Release?)
    requires ErrOf(s.frames[a.f].pc).None?
    ensures |Next(c, s, a).frames| == |s.frames|
    ensures After(c, rank, Next(c, s, a).frames[a.f], Next(c, s, a).log) == After(c, rank, s.frames[a.f], s.log)
  {
  }

  lemma SameAfterFinish(c: Config, rank: Digest -> nat, s: State, f: nat)
    requires Ranked(c.refs, rank) && c.mode == KeyThenSlot && Guard(c, s, Finish(f, None))
    ensures var s' := Next(c, s, Finish(f, None));
      After(c, rank, s'.frames[f], s'.log) == After(c, rank, s.frames[f], s.log)
  {
  }

  lemma SameAfterAsk(c: Config, rank: Digest -> nat, s: State, f: nat)
    requires Ranked(c.refs, rank) && c.mode == KeyThenSlot && Inv(c, s) && Guard(c, s, Ask(f))
    requires ErrOf(Next(c, s, Ask(f)).frames[f].pc).None?
    ensures var s' := Next(c, s, Ask(f));
      After(c, rank, s'.frames[f], s'.log) == After(c, rank, s.frames[f], s.log)
  {
    var d := s.frames[f].digest;
    assert ShapeAt(c, s.frames, f);
    if d !in s.tasks {
      UnclaimedNotLanded(c, s, d);
      VisitFresh(c, rank, s.frames[f].(pc := Next(c, s, Ask(f)).frames[f].pc), s.log);
      assert Next(c, s, Ask(f)).frames[f].pc.SlotCheck?;
    } else {
      assert Next(c, s, Ask(f)).frames[f].pc == Waiting;
    }
  }

  /** A digest not yet pushed: its references, if it is a document, and then itself. */
  lemma VisitFresh(c: Config, rank: Digest -> nat, fr: Frame, log: seq<Digest>)
    requires Ranked(c.refs, rank) && fr.digest !in log && fr.kids == []
    ensures Visit(c.refs, rank, log, fr.digest) ==
      if fr.digest in c.refs then VisitRest(c, rank, fr, log) else log + [fr.digest]
  {
    assert Out(c.refs, fr.digest)[0..] == Out(c.refs, fr.digest);
  }

  lemma SameAfterWake(c: Config, rank: Digest -> nat, s: State, f: nat)
    requires Ranked(c.refs, rank) && c.mode == KeyThenSlot && Inv(c, s) && Guard(c, s, Wake(f))
    requires ErrOf(Next(c, s, Wake(f)).frames[f].pc).None?
    ensures var s' := Next(c, s, Wake(f));
      After(c, rank, s'.frames[f], s'.log) == After(c, rank, s.frames[f], s.log)
  {
    assert TaskData(c, s, s.frames[f].digest);
  }

  lemma SameAfterGather(c: Config, rank: Digest -> nat, s: State, f: nat)
    requires Ranked(c.refs, rank) && c.mode == KeyThenSlot && Inv(c, s) && Guard(c, s, Gather(f))
    requires ErrOf(s.frames[f].pc).None?
    ensures var s' := Next(c, s, Gather(f));
      After(c, rank, s'.frames[f], s'.log) == After(c, rank, s.frames[f], s.log)
  {
    assert ShapeAt(c, s.frames, f);
  }

  lemma FinishClean(c: Config, s: State, a: Action)
    requires a.Finish? && Guard(c, s, a) && ErrOf(Next(c, s, a).frames[a.f].pc).None? && c.mode == KeyThenSlot
    ensures a.out.None?
  {
  }

  lemma SameAfterAny(c: Config, rank: Digest -> nat, s: State, a: Action)
    requires Ranked(c.refs, rank) && c.mode == KeyThenSlot && Inv(c, s) && Guard(c, s, a)
    requires a != CallerCancels && !a.Spawn? && !a.Join?
    requires ErrOf(s.frames[a.f].pc).None? && ErrOf(Next(c, s, a).frames[a.f].pc).None?
    ensures After(c, rank, Next(c, s, a).frames[a.f], Next(c, s, a).log) == After(c, rank, s.frames[a.f], s.log)
  {
    match a
    case Ask(f) => SameAfterAsk(c, rank, s, f);
    case Wake(f) => SameAfterWake(c, rank, s, f);
    case Gather(f) => SameAfterGather(c, rank, s, f);
    case Finish(f, out) =>
      FinishClean(c, s, a);
      SameAfterFinish(c, rank, s, f);
    case Acquire(f) => SameAfterSlot(c, rank, s, a);
    case Release(f) => SameAfterSlot(c, rank, s, a);
    case _ => SameAfter(c, rank, s, a);
  }

  lemma StaysOpen(c: Config, s: State, a: Action)
    requires Guard(c, s, a) && a != CallerCancels && !a.Spawn? && !a.Join?
    requires Moves(s, Next(c, s, a), a.f)
    ensures !Next(c, s, a).frames[a.f].pc.Joined?
  {
    if a.Ask? || a.Acquire? || a.Finish? || a.Release? {
      WorkForward(c, s, a);
    } else if !a.Gather? {
      PlainForward(c, s, a);
    }
  }

  /** A step of the innermost call that neither calls nor returns to its caller. */
  lemma SerialMove(c: Config, rank: Digest -> nat, s: State, a: Action)
    requires Ranked(c.refs, rank) && c.mode == KeyThenSlot && Inv(c, s)
    requires Guard(c, s, a) && a != CallerCancels && !a.Spawn? && !a.Join? && Serial(c, rank, s, a.f)
    requires Moves(s, Next(c, s, a), a.f)
    requires ErrOf(s.frames[a.f].pc).None? && ErrOf(Next(c, s, a).frames[a.f].pc).None?
    ensures Serial(c, rank, Next(c, s, a), a.f)
  {
    SameAfterAny(c, rank, s, a);
    StaysOpen(c, s, a);
    SerialLocal(c, rank, s, Next(c, s, a), a.f);
  }

  lemma SerialStep(c: Config, rank: Digest -> nat, s: State, f: nat, a: Action) returns (f': nat)
    requires Ranked(c.refs, rank) && c.mode == KeyThenSlot && c.limit <= 1
    requires Inv(c, s) && Serial(c, rank, s, f) && Guard(c, s, a) && AllClean(Next(c, s, a))
    ensures Serial(c, rank, Next(c, s, a), f')
  {
    CleanBefore(c, s, a);
    f' := f;
    if a != CallerCancels {
      OnlyTopMoves(c, s, f, a);
      assert ErrOf(s.frames[f].pc).None?;
      if a.Spawn? {
        SerialSpawn(c, rank, s, f);
        f' := |s.frames|;
      } else if a.Join? {
        SerialJoin(c, rank, s, f);
        f' := s.frames[f].parent;
      } else {
        OneFrameMoves(c, s, a);
        SerialMove(c, rank, s, a);
      }
    }
  }

  lemma {:induction false} SerialRun(c: Config, rank: Digest -> nat, s: State, f: nat, run: seq<Action>, t: State)
    returns (end: nat)
    requires Ranked(c.refs, rank) && c.mode == KeyThenSlot && c.limit <= 1
    requires Inv(c, s) && Serial(c, rank, s, f) && IsRun(c, s, run, t) && AllClean(t)
    ensures Serial(c, rank, t, end)
    decreases |run|
  {
    if run == [] {
      end := f;
    } else {
      CleanStart(c, Next(c, s, run[0]), run[1..], t);
      var f' := SerialStep(c, rank, s, f, run[0]);
      InvStep(c, s, run[0]);
      end := SerialRun(c, rank, Next(c, s, run[0]), f', run[1..], t);
    }
  }

  /** After a success no call has left an error behind. */
  lemma SuccessIsAllClean(c: Config, t: State)
    requires Succeeds(c, t)
    ensures AllClean(t)
  {
    var run :| IsRun(c, Init(c), run, t);
    InvInit(c);
    CleanKidsRun(c, Init(c), run, t);
    forall f | 0 <= f < |t.frames| ensures ErrOf(t.frames[f].pc).None? {
      SuccessIsClean(c, t, f);
    }
  }

  /** At a limit of 1 and over references that all lower a rank, every successful copy pushes in
      first-visit post-order. */
  lemma RankedPostOrder(c: Config, rank: Digest -> nat, t: State)
    requires Ranked(c.refs, rank) && c.mode == KeyThenSlot && c.limit <= 1 && Succeeds(c, t)
    ensures t.log == Visit(c.refs, rank, [], c.root)
  {
    var run :| IsRun(c, Init(c), run, t);
    InvInit(c);
    SuccessIsAllClean(c, t);
    var end := SerialRun(c, rank, Init(c), 0, run, t);
    assert end == 0;
  }
}
