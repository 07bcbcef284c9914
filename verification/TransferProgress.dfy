/** The transfer machine never deadlocks over content-addressed references, under
    either discipline; over a reference loop it does, and the copier's own check
    for one cannot fire. */
module TransferProgress {
  import opened Graph
  import opened Budgets
  import opened Transfer
  import opened TransferInvariant

  /** Whoever owns a task in the pack discipline can move: it already has its slot. */
  lemma PackOwnerMoves(c: Config, s: State, f: nat) returns (a: Action)
    requires c.mode == SlotThenKey && f < |s.frames| && Owns(c.mode, s.frames[f].pc)
    ensures a != CallerCancels && Guard(c, s, a)
  {
    match s.frames[f].pc
    case Running(_) => a := Finish(f, None);
    case Finishing(_) => a := Note(f);
    case Closing(_) => a := Close(f);
  }

  /** References strictly lower the rank wherever the root leads. */
  ghost predicate RankedFrom(g: Refs, root: Digest, rank: Digest -> nat) {
    forall d, x | Reaches(g, root, d) && x in Out(g, d) :: rank(x) < rank(d)
  }

  /** Some slot holder can always move: holders wait on nothing but a pack owner. */
  lemma HolderMoves(c: Config, s: State, f: nat) returns (a: Action)
    requires Inv(c, s) && f < |s.frames| && Holds(c.mode, s.frames[f].pc)
    ensures a != CallerCancels && Guard(c, s, a)
  {
    match s.frames[f].pc
    case Running(_) => a := Finish(f, None);
    case Releasing(_, _) => a := Release(f);
    case Asking => a := Ask(f);
    case Finishing(_) => a := Note(f);
    case Closing(_) => a := Close(f);
    case Waiting =>
      var d := s.frames[f].digest;
      assert FrameData(c, s, f) && TaskData(c, s, d);
      match s.tasks[d]
      case Closed(_) => a := Wake(f);
      case Open(o) => a := PackOwnerMoves(c, s, o);
  }

  /** Where every slot is taken, some holder can move. */
  lemma SelectMoves(c: Config, s: State, f: nat) returns (a: Action)
    requires Inv(c, s) && f < |s.frames| && s.frames[f].pc.SlotSelect?
    ensures a != CallerCancels && Guard(c, s, a)
  {
    if Holders(c.mode, s.frames) < Clamp(c.limit) {
      a := Acquire(f);
    } else {
      var h := HolderExists(c.mode, s.frames);
      a := HolderMoves(c, s, h);
    }
  }

  /** An Each that cannot return yet has a call below it that is not done. */
  lemma OpenKid(c: Config, s: State, f: nat) returns (k: nat)
    requires Shape(c, s.frames) && f < |s.frames| && !AllJoined(s, s.frames[f].kids)
    ensures f < k < |s.frames| && !s.frames[k].pc.Joined? && s.frames[k].digest in Kids(c, s, f)
  {
    k :| k in s.frames[f].kids && !(k < |s.frames| && s.frames[k].pc.Joined?);
    var j :| 0 <= j < |s.frames[f].kids| && s.frames[f].kids[j] == k;
    assert ShapeAt(c, s.frames, f) && KidOk(c, s.frames, f, j);
  }

  /** Follow what f waits for down to a frame that can move. Key waits keep the rank
      and end at the owner; waits on calls below strictly lower it. */
  lemma {:induction false} FrameMoves(c: Config, s: State, rank: Digest -> nat, f: nat) returns (a: Action)
    requires Inv(c, s) && RankedFrom(c.refs, c.root, rank) && f < |s.frames|
    requires !s.frames[f].pc.Joined? && !(f == 0 && s.frames[f].pc.Returned?)
    ensures a != CallerCancels && Guard(c, s, a)
    decreases rank(s.frames[f].digest), if s.frames[f].pc.Waiting? then 1 else 0
  {
    var fr := s.frames[f];
    assert ShapeAt(c, s.frames, f) && FrameData(c, s, f);
    match fr.pc
    case Entry => a := Enter(f);
    case Asking => a := Ask(f);
    case SlotCheck(_) => a := if Cancelled(s, f) then Abandon(f) else Pass(f);
    case SlotSelect(_) => a := SelectMoves(c, s, f);
    case Running(_) => a := Finish(f, None);
    case Releasing(_, _) => a := Release(f);
    case Finishing(_) => a := Note(f);
    case Closing(_) => a := Close(f);
    case Returned(_) => a := Report(f);
    case Recorded(_) => a := Join(f);
    case Waiting =>
      assert TaskData(c, s, fr.digest);
      match s.tasks[fr.digest] {
        case Closed(_) => a := Wake(f);
        case Open(o) => a := FrameMoves(c, s, rank, o);
      }
    case Fan(failed) =>
      if !AllJoined(s, fr.kids) {
        var k := OpenKid(c, s, f);
        a := FrameMoves(c, s, rank, k);
      } else if |fr.kids| < |Kids(c, s, f)| && (Parallel(c, |Kids(c, s, f)|) || failed.None?) {
        a := Spawn(f);
      } else {
        a := Gather(f);
      }
  }

  /** Deadlock freedom, for both clients, every limit and every interleaving. */
  lemma NeverStuck(c: Config, s: State, rank: Digest -> nat)
    requires Reachable(c, s) && RankedFrom(c.refs, c.root, rank) && !Done(s)
    ensures exists a :: a != CallerCancels && Guard(c, s, a)
  {
    ReachableInv(c, s);
    assert ShapeAt(c, s.frames, 0);
    var a := FrameMoves(c, s, rank, 0);
  }

  /** The operations going on. */
  ghost function AtWork(frames: seq<Frame>): set<nat> {
    set f: nat | f < |frames| && frames[f].pc.Running?
  }

  lemma {:induction false} AtWorkHold(m: Discipline, frames: seq<Frame>)
    ensures |AtWork(frames)| <= Holders(m, frames)
  {
    if frames != [] {
      var n := |frames| - 1;
      AtWorkHold(m, frames[..n]);
      assert AtWork(frames) == AtWork(frames[..n]) + if frames[n].pc.Running? then {n} else {};
    }
  }

  /** In any reachable state no more operations go on, and no more slots are in use, than were asked for, or one
      where none were. */
  lemma SlotLimit(c: Config, s: State)
    requires Reachable(c, s)
    ensures |AtWork(s.frames)| <= Holders(c.mode, s.frames) <= if c.limit < 1 then 1 else c.limit
  {
    ReachableInv(c, s);
    AtWorkHold(c.mode, s.frames);
  }

  /** The two disciplines that make waiting safe. A copier that waits for a key holds no
      slot; a pack waiter holds one, but whoever it waits for already holds one too. */
  lemma WaitersAreSafe(c: Config, s: State, f: nat)
    requires Reachable(c, s) && f < |s.frames| && s.frames[f].pc.Waiting?
    ensures c.mode == KeyThenSlot ==> !Holds(c.mode, s.frames[f].pc)
    ensures s.frames[f].digest in s.tasks
    ensures c.mode == SlotThenKey && s.tasks[s.frames[f].digest].Open? ==>
      s.tasks[s.frames[f].digest].owner < |s.frames| &&
      Holds(c.mode, s.frames[s.tasks[s.frames[f].digest].owner].pc)
  {
    ReachableInv(c, s);
    assert FrameData(c, s, f) && TaskData(c, s, s.frames[f].digest);
  }

  /** Every digest above a live copy is claimed. */
  lemma {:induction false} PathIsClaimed(c: Config, s: State, f: nat, d: Digest)
    requires Inv(c, s) && c.mode == KeyThenSlot
    requires f < |s.frames| && !s.frames[f].pc.Joined? && OnPath(s, f, d)
    ensures d in s.tasks
    decreases f
  {
    var p := s.frames[f].parent;
    assert ShapeAt(c, s.frames, f) && FrameData(c, s, p);
    if s.frames[p].digest != d {
      PathIsClaimed(c, s, p, d);
    }
  }

  /** The loop check in walk is dead code over every graph, looping or not: a digest
      above the current one is already claimed, so Once makes the frame wait first. */
  lemma BackstopNeverFires(c: Config, s: State, f: nat)
    requires Reachable(c, s) && c.mode == KeyThenSlot && Guard(c, s, Ask(f))
    requires OnPath(s, f, s.frames[f].digest)
    ensures Next(c, s, Ask(f)).frames[f].pc == Waiting
  {
    ReachableInv(c, s);
    PathIsClaimed(c, s, f, s.frames[f].digest);
  }
}
