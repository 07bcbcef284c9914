/** What every step of the transfer machine keeps. */
module TransferInvariant {
  import opened Graph
  import opened Budgets
  import opened Transfer

  /** The state s' is the state s with the program point of one frame moved. */
  ghost predicate Moves(s: State, s': State, f: nat) {
    f < |s.frames| == |s'.frames| && s'.frames == s.frames[f := s.frames[f].(pc := s'.frames[f].pc)]
  }

  lemma AskMoves(c: Config, s: State, f: nat)
    requires f < |s.frames|
    ensures Moves(s, AskNext(c, s, f), f)
  {
  }

  lemma OperationMoves(c: Config, s: State, a: Action)
    requires Guard(c, s, a) && (a.Acquire? || a.Finish? || a.Release? || a.Gather?)
    ensures Moves(s, Next(c, s, a), a.f)
  {
  }

  lemma PlainMoves(c: Config, s: State, a: Action)
    requires Guard(c, s, a)
    requires a.Enter? || a.Wake? || a.Abandon? || a.Pass? || a.Note? || a.Close? || a.Report?
    ensures Moves(s, Next(c, s, a), a.f)
  {
  }

  /** All but three kinds of step move one frame's program point and no other. */
  lemma OneFrameMoves(c: Config, s: State, a: Action)
    requires Guard(c, s, a) && a != CallerCancels && !a.Spawn? && !a.Join?
    ensures Moves(s, Next(c, s, a), a.f)
  {
    if a.Ask? {
      AskMoves(c, s, a.f);
    } else if a.Acquire? || a.Finish? || a.Release? || a.Gather? {
      OperationMoves(c, s, a);
    } else {
      PlainMoves(c, s, a);
    }
  }

  /** A join moves a call and the group that called it. */
  lemma JoinMoves(c: Config, s: State, f: nat)
    requires Guard(c, s, Join(f))
    ensures var p := s.frames[f].parent; var s' := Next(c, s, Join(f));
      && p < |s'.frames| && s'.frames[p].pc.Fan? && SameShared(s, s')
      && s'.frames == s.frames[f := s.frames[f].(pc := Joined(s.frames[f].pc.err))]
                              [p := s.frames[p].(pc := s'.frames[p].pc)]
  {
  }

  /** A spawn adds a call and lists it with its caller. */
  lemma SpawnMoves(c: Config, s: State, f: nat)
    requires Guard(c, s, Spawn(f))
    ensures var fr := s.frames[f]; var s' := Next(c, s, Spawn(f));
      && |fr.kids| < |Kids(c, s, f)| && SameShared(s, s')
      && s'.frames == s.frames[f := fr.(kids := fr.kids + [|s.frames|])]
                      + [Frame(Kids(c, s, f)[|fr.kids|], f, |fr.kids|, [], Entry)]
  {
  }

  // ---------- the call tree ----------

  /** Program points no call below can have been made from yet. */
  predicate Early(m: Discipline, pc: Pc) {
    pc.Entry? ||
    (m == KeyThenSlot &&
     (pc.Asking? || pc.Waiting? ||
      ((pc.SlotCheck? || pc.SlotSelect? || pc.Running? || pc.Releasing?) && pc.op == Fetch)))
  }

  ghost predicate KidOk(c: Config, frames: seq<Frame>, f: nat, j: nat)
    requires f < |frames| && j < |frames[f].kids| && j < |Out(c.refs, frames[f].digest)|
  {
    var k := frames[f].kids[j];
    f < k < |frames| && frames[k].parent == f && frames[k].pos == j &&
    frames[k].digest == Out(c.refs, frames[f].digest)[j]
  }

  ghost predicate ShapeAt(c: Config, frames: seq<Frame>, f: nat)
    requires f < |frames|
  {
    var fr := frames[f];
    && (f > 0 ==>
         fr.parent < f && fr.pos < |frames[fr.parent].kids| && frames[fr.parent].kids[fr.pos] == f &&
         (fr.pc.Joined? || frames[fr.parent].pc.Fan?))
    && (f == 0 ==> fr.digest == c.root && !fr.pc.Recorded? && !fr.pc.Joined?)
    && |fr.kids| <= |Out(c.refs, fr.digest)|
    && (forall j | 0 <= j < |fr.kids| :: KidOk(c, frames, f, j))
    && (Early(c.mode, fr.pc) ==> fr.kids == [])
    && (fr.pc.Fan? && fr.pc.failed.None? ==>
         forall j | 0 <= j < |fr.kids| && fr.kids[j] < |frames| ::
           frames[fr.kids[j]].pc.Joined? ==> frames[fr.kids[j]].pc.err.None?)
  }

  ghost predicate Shape(c: Config, frames: seq<Frame>) {
    |frames| > 0 && forall f | 0 <= f < |frames| :: ShapeAt(c, frames, f)
  }

  lemma ShapeInit(c: Config)
    ensures Shape(c, Init(c).frames)
  {
  }

  /** A frame moving on its own keeps the tree. */
  lemma ShapeLocal(c: Config, frames: seq<Frame>, f: nat, pc: Pc)
    requires Shape(c, frames) && f < |frames|
    requires !frames[f].pc.Joined? && !pc.Joined?
    requires f == 0 ==> !pc.Recorded?
    requires Early(c.mode, pc) ==> Early(c.mode, frames[f].pc)
    requires pc.Fan? ==> Early(c.mode, frames[f].pc)
    requires frames[f].pc.Fan? ==>
      forall j | 0 <= j < |frames[f].kids| :: frames[f].kids[j] < |frames| && frames[frames[f].kids[j]].pc.Joined?
    ensures Shape(c, frames[f := frames[f].(pc := pc)])
  {
    var frames' := frames[f := frames[f].(pc := pc)];
    forall g | 0 <= g < |frames'| ensures ShapeAt(c, frames', g) {
      assert ShapeAt(c, frames, g);
      forall j | 0 <= j < |frames'[g].kids| ensures KidOk(c, frames', g, j) {
        assert KidOk(c, frames, g, j);
      }
      if g > 0 && frames[g].parent == f && frames[f].pc.Fan? {
        assert frames[f].kids[frames[g].pos] == g;
      }
    }
  }

  /** A new call keeps the tree at any frame that was there. */
  lemma ShapeAdd(c: Config, frames: seq<Frame>, frames': seq<Frame>, f: nat, g: nat)
    requires Shape(c, frames) && f < |frames| && g < |frames| && frames[f].pc.Fan?
    requires |frames[f].kids| < |Out(c.refs, frames[f].digest)|
    requires frames' == frames[f := frames[f].(kids := frames[f].kids + [|frames|])]
      + [Frame(Out(c.refs, frames[f].digest)[|frames[f].kids|], f, |frames[f].kids|, [], Entry)]
    ensures ShapeAt(c, frames', g)
  {
    assert ShapeAt(c, frames, g);
    forall j | 0 <= j < |frames'[g].kids| ensures KidOk(c, frames', g, j) {
      if j < |frames[g].kids| {
        assert KidOk(c, frames, g, j);
      }
    }
    forall j | 0 <= j < |frames'[g].kids| && frames'[g].kids[j] < |frames'|
      ensures (j < |frames[g].kids| && frames[g].kids[j] < |frames|) || frames'[frames'[g].kids[j]].pc.Entry?
    {
      if j < |frames[g].kids| {
        assert KidOk(c, frames, g, j);
      }
    }
  }

  lemma ShapeSpawn(c: Config, s: State, f: nat)
    requires Shape(c, s.frames) && Guard(c, s, Spawn(f))
    ensures Shape(c, Next(c, s, Spawn(f)).frames)
  {
    var frames' := Next(c, s, Spawn(f)).frames;
    SpawnMoves(c, s, f);
    forall g | 0 <= g < |frames'| ensures ShapeAt(c, frames', g) {
      if g < |s.frames| { ShapeAdd(c, s.frames, frames', f, g); }
    }
  }

  /** The group takes note of an error; a group that has one keeps it. */
  lemma ShapeGroupError(c: Config, frames: seq<Frame>, p: nat, failed: Err)
    requires Shape(c, frames) && p < |frames| && frames[p].pc.Fan?
    requires failed.None? ==> frames[p].pc.failed.None?
    ensures Shape(c, frames[p := frames[p].(pc := Fan(failed))])
  {
    var frames' := frames[p := frames[p].(pc := Fan(failed))];
    forall g | 0 <= g < |frames'| ensures ShapeAt(c, frames', g) {
      assert ShapeAt(c, frames, g);
      forall j | 0 <= j < |frames'[g].kids| ensures KidOk(c, frames', g, j) {
        assert KidOk(c, frames, g, j);
      }
    }
  }

  /** A call whose result the group has taken note of is done. */
  lemma ShapeMark(c: Config, frames: seq<Frame>, f: nat)
    requires Shape(c, frames) && 0 < f < |frames| && frames[f].pc.Recorded? && frames[f].parent < f
    requires frames[frames[f].parent].pc.Fan?
    requires frames[frames[f].parent].pc.failed.None? ==> frames[f].pc.err.None?
    ensures Shape(c, frames[f := frames[f].(pc := Joined(frames[f].pc.err))])
  {
    var frames' := frames[f := frames[f].(pc := Joined(frames[f].pc.err))];
    forall g | 0 <= g < |frames'| ensures ShapeAt(c, frames', g) {
      assert ShapeAt(c, frames, g);
      forall j | 0 <= j < |frames'[g].kids| ensures KidOk(c, frames', g, j) {
        assert KidOk(c, frames, g, j);
      }
      if frames[g].pc.Fan? && frames[g].pc.failed.None? {
        forall j | 0 <= j < |frames[g].kids| && frames[g].kids[j] < |frames|
          ensures frames'[frames[g].kids[j]].pc.Joined? ==> frames'[frames[g].kids[j]].pc.err.None?
        {
          assert KidOk(c, frames, g, j);
        }
      }
    }
  }

  lemma ShapeJoin(c: Config, s: State, f: nat)
    requires Shape(c, s.frames) && Guard(c, s, Join(f))
    ensures Shape(c, Next(c, s, Join(f)).frames)
  {
    var p := s.frames[f].parent;
    var failed := Next(c, s, Join(f)).frames[p].pc.failed;
    var frames1 := s.frames[p := s.frames[p].(pc := Fan(failed))];
    ShapeGroupError(c, s.frames, p, failed);
    ShapeMark(c, frames1, f);
    JoinMoves(c, s, f);
    assert Next(c, s, Join(f)).frames == frames1[f := frames1[f].(pc := Joined(frames1[f].pc.err))];
  }

  lemma ShapeGather(c: Config, s: State, f: nat)
    requires Shape(c, s.frames) && Guard(c, s, Gather(f))
    ensures Shape(c, Next(c, s, Gather(f)).frames)
  {
    forall j | 0 <= j < |s.frames[f].kids|
      ensures s.frames[f].kids[j] < |s.frames| && s.frames[s.frames[f].kids[j]].pc.Joined?
    {
      assert s.frames[f].kids[j] in s.frames[f].kids;
    }
    ShapeLocal(c, s.frames, f, Next(c, s, Gather(f)).frames[f].pc);
  }

  /** Program points move forward: none comes back to before its calls. */
  predicate Forward(m: Discipline, pc: Pc, pc': Pc) {
    && !pc.Joined? && !pc'.Joined? && !pc.Fan? && (pc'.Recorded? ==> pc.Returned?)
    && (Early(m, pc') ==> Early(m, pc)) && (pc'.Fan? ==> Early(m, pc))
  }

  lemma WorkForward(c: Config, s: State, a: Action)
    requires Guard(c, s, a) && (a.Ask? || a.Acquire? || a.Finish? || a.Release?)
    requires Moves(s, Next(c, s, a), a.f)
    ensures Forward(c.mode, s.frames[a.f].pc, Next(c, s, a).frames[a.f].pc)
  {
  }

  lemma PlainForward(c: Config, s: State, a: Action)
    requires Guard(c, s, a) && (a.Enter? || a.Wake? || a.Abandon? || a.Pass? || a.Note? || a.Close? || a.Report?)
    requires Moves(s, Next(c, s, a), a.f)
    ensures Forward(c.mode, s.frames[a.f].pc, Next(c, s, a).frames[a.f].pc)
  {
  }

  lemma ShapeQuiet(c: Config, s: State, a: Action)
    requires Shape(c, s.frames) && Guard(c, s, a)
    requires a != CallerCancels && !a.Spawn? && !a.Join? && !a.Gather?
    ensures Shape(c, Next(c, s, a).frames)
  {
    OneFrameMoves(c, s, a);
    assert ShapeAt(c, s.frames, a.f);
    if a.Ask? || a.Acquire? || a.Finish? || a.Release? {
      WorkForward(c, s, a);
    } else {
      PlainForward(c, s, a);
    }
    if a.f == 0 { assert !a.Report?; }
    ShapeLocal(c, s.frames, a.f, Next(c, s, a).frames[a.f].pc);
  }

  lemma ShapeStep(c: Config, s: State, a: Action)
    requires Shape(c, s.frames) && Guard(c, s, a)
    ensures Shape(c, Next(c, s, a).frames)
  {
    if a == CallerCancels {
    } else if a.Spawn? {
      ShapeSpawn(c, s, a.f);
    } else if a.Join? {
      ShapeJoin(c, s, a.f);
    } else if a.Gather? {
      ShapeGather(c, s, a.f);
    } else {
      ShapeQuiet(c, s, a);
    }
  }

  // ---------- tasks, the destination and its push log ----------

  /** Program points at which a frame owns the task of its digest. */
  predicate Owns(m: Discipline, pc: Pc) {
    pc.Finishing? || pc.Closing? ||
    (if m == KeyThenSlot then pc.SlotCheck? || pc.SlotSelect? || pc.Running? || pc.Releasing? || pc.Fan?
     else pc.Running? && pc.op == Push)
  }

  /** Program points between a successful Each over the references and the push. */
  predicate Late(m: Discipline, pc: Pc) {
    ((pc.SlotCheck? || pc.SlotSelect? || pc.Running?) && pc.op == Push) ||
    (m == SlotThenKey && (pc.Running? || pc.Asking? || pc.Waiting?))
  }

  predicate Succeeded(pc: Pc) {
    (pc.Releasing? && pc.op == Push && pc.err.None?) ||
    ((pc.Finishing? || pc.Closing? || pc.Returned? || pc.Recorded? || pc.Joined?) && pc.err.None?)
  }

  ghost predicate FrameData(c: Config, s: State, f: nat)
    requires f < |s.frames|
  {
    var fr := s.frames[f];
    && (Late(c.mode, fr.pc) ==> forall x | x in Out(c.refs, fr.digest) :: x in s.log)
    && (Succeeded(fr.pc) ==> fr.digest in s.log)
    && (Owns(c.mode, fr.pc) ==> fr.digest in s.tasks && s.tasks[fr.digest] == Open(f))
    && (Owns(c.mode, fr.pc) && !Succeeded(fr.pc) ==> fr.digest !in s.log)
    && (fr.pc.Waiting? ==> fr.digest in s.tasks)
    && (c.mode == SlotThenKey && (fr.pc.SlotCheck? || fr.pc.SlotSelect? || fr.pc.Releasing?) ==> fr.pc.op == Push)
  }

  ghost predicate TaskData(c: Config, s: State, d: Digest)
    requires d in s.tasks
  {
    match s.tasks[d]
    case Open(o) => o < |s.frames| && s.frames[o].digest == d && Owns(c.mode, s.frames[o].pc)
    case Closed(e) => e.None? ==> d in s.log
  }

  ghost predicate LogAt(c: Config, s: State, i: nat)
    requires i < |s.log|
  {
    && s.log[i] in s.tasks
    && (forall x | x in Out(c.refs, s.log[i]) :: x in s.log[..i])
    && s.log[i] !in s.log[..i]
  }

  function Elems(log: seq<Digest>): set<Digest> {
    set x | x in log
  }

  ghost predicate Data(c: Config, s: State) {
    && (forall f | 0 <= f < |s.frames| :: FrameData(c, s, f))
    && (forall d | d in s.tasks :: TaskData(c, s, d))
    && (forall i | 0 <= i < |s.log| :: LogAt(c, s, i))
    && s.dst == c.before + Elems(s.log)
  }

  lemma DataInit(c: Config)
    ensures Data(c, Init(c))
  {
  }

  ghost predicate SameShared(s: State, s': State) {
    s'.tasks == s.tasks && s'.log == s.log && s'.dst == s.dst
  }

  /** A frame that moves without touching tasks or destination. */
  lemma DataLocal(c: Config, s: State, s': State, f: nat)
    requires Data(c, s) && f < |s.frames| == |s'.frames| && SameShared(s, s')
    requires s'.frames == s.frames[f := s.frames[f].(pc := s'.frames[f].pc)]
    requires Owns(c.mode, s.frames[f].pc) <==> Owns(c.mode, s'.frames[f].pc)
    requires FrameData(c, s', f)
    ensures Data(c, s')
  {
    forall g | 0 <= g < |s'.frames| ensures FrameData(c, s', g) {
      assert FrameData(c, s, g);
    }
    forall d | d in s'.tasks ensures TaskData(c, s', d) {
      assert TaskData(c, s, d);
    }
    forall i | 0 <= i < |s'.log| ensures LogAt(c, s', i) {
      assert LogAt(c, s, i);
    }
  }

  /** An unclaimed digest has not landed. */
  lemma UnclaimedNotLanded(c: Config, s: State, d: Digest)
    requires Data(c, s) && d !in s.tasks
    ensures d !in s.log
  {
    forall i | 0 <= i < |s.log| ensures s.log[i] != d {
      assert LogAt(c, s, i);
    }
  }

  /** A frame that claims the task of its digest. */
  lemma DataClaim(c: Config, s: State, s': State, f: nat)
    requires Data(c, s) && f < |s.frames| == |s'.frames| && s.frames[f].digest !in s.tasks
    requires s'.frames == s.frames[f := s.frames[f].(pc := s'.frames[f].pc)]
    requires s'.tasks == s.tasks[s.frames[f].digest := Open(f)] && s'.log == s.log && s'.dst == s.dst
    requires !Owns(c.mode, s.frames[f].pc) && Owns(c.mode, s'.frames[f].pc)
    requires FrameData(c, s', f)
    ensures Data(c, s')
  {
    var d := s.frames[f].digest;
    forall g | 0 <= g < |s'.frames| ensures FrameData(c, s', g) {
      assert FrameData(c, s, g);
    }
    forall e | e in s'.tasks ensures TaskData(c, s', e) {
      if e != d { assert TaskData(c, s, e); }
    }
    forall i | 0 <= i < |s'.log| ensures LogAt(c, s', i) {
      assert LogAt(c, s, i);
    }
  }

  lemma DataAsk(c: Config, s: State, f: nat)
    requires Data(c, s) && Shape(c, s.frames) && Guard(c, s, Ask(f))
    ensures Data(c, Next(c, s, Ask(f)))
  {
    var s' := Next(c, s, Ask(f));
    var d := s.frames[f].digest;
    assert FrameData(c, s, f);
    if d in s.tasks {
      DataLocal(c, s, s', f);
    } else {
      UnclaimedNotLanded(c, s, d);
      DataClaim(c, s, s', f);
    }
  }

  lemma DataLand(c: Config, s: State, f: nat)
    requires Data(c, s) && Guard(c, s, Finish(f, None)) && s.frames[f].pc.op == Push
    ensures Data(c, Next(c, s, Finish(f, None)))
  {
    var s' := Next(c, s, Finish(f, None));
    var d := s.frames[f].digest;
    assert FrameData(c, s, f);
    assert s'.log == s.log + [d];
    forall x | x in s.log ensures x in s'.log {}
    forall g | 0 <= g < |s'.frames| ensures FrameData(c, s', g) {
      assert FrameData(c, s, g);
    }
    forall e | e in s'.tasks ensures TaskData(c, s', e) {
      assert TaskData(c, s, e);
    }
    forall i | 0 <= i < |s'.log| ensures LogAt(c, s', i) {
      if i < |s.log| {
        assert LogAt(c, s, i);
        assert s'.log[..i] == s.log[..i];
      } else {
        assert s'.log[..i] == s.log;
      }
    }
    assert Elems(s'.log) == Elems(s.log) + {d};
  }

  lemma DataClose(c: Config, s: State, f: nat)
    requires Data(c, s) && Guard(c, s, Close(f))
    ensures Data(c, Next(c, s, Close(f)))
  {
    var s' := Next(c, s, Close(f));
    var d := s.frames[f].digest;
    assert FrameData(c, s, f);
    forall g | 0 <= g < |s'.frames| ensures FrameData(c, s', g) {
      assert FrameData(c, s, g);
    }
    forall e | e in s'.tasks ensures TaskData(c, s', e) {
      assert TaskData(c, s, e);
    }
    forall i | 0 <= i < |s'.log| ensures LogAt(c, s', i) {
      assert LogAt(c, s, i);
    }
  }

  lemma DataSpawn(c: Config, s: State, f: nat)
    requires Data(c, s) && Guard(c, s, Spawn(f))
    ensures Data(c, Next(c, s, Spawn(f)))
  {
    var s' := Next(c, s, Spawn(f));
    forall g | 0 <= g < |s'.frames| ensures FrameData(c, s', g) {
      if g < |s.frames| { assert FrameData(c, s, g); }
    }
    forall d | d in s'.tasks ensures TaskData(c, s', d) {
      assert TaskData(c, s, d);
    }
    forall i | 0 <= i < |s'.log| ensures LogAt(c, s', i) {
      assert LogAt(c, s, i);
    }
  }

  lemma DataJoin(c: Config, s: State, f: nat)
    requires Data(c, s) && Guard(c, s, Join(f))
    ensures Data(c, Next(c, s, Join(f)))
  {
    JoinMoves(c, s, f);
    DataJoined(c, s, Next(c, s, Join(f)), f, s.frames[f].parent);
  }

  /** A call and the group that called it move together. */
  lemma DataJoined(c: Config, s: State, s': State, f: nat, p: nat)
    requires Data(c, s) && p < f < |s.frames| == |s'.frames| && SameShared(s, s')
    requires s.frames[f].pc.Recorded? && s.frames[p].pc.Fan? && s'.frames[p].pc.Fan?
    requires s'.frames == s.frames[f := s.frames[f].(pc := Joined(s.frames[f].pc.err))]
                                  [p := s.frames[p].(pc := s'.frames[p].pc)]
    ensures Data(c, s')
  {
    var s1 := SetPc(s, f, Joined(s.frames[f].pc.err));
    assert FrameData(c, s, f) && FrameData(c, s, p);
    DataLocal(c, s, s1, f);
    DataLocal(c, s1, s', p);
  }

  /** Each returning without an error means every reference has landed. */
  lemma GatheredLanded(c: Config, s: State, f: nat)
    requires Data(c, s) && Shape(c, s.frames) && Guard(c, s, Gather(f)) && s.frames[f].pc.failed.None?
    ensures forall x | x in Kids(c, s, f) :: x in s.log
  {
    assert ShapeAt(c, s.frames, f);
    var fr := s.frames[f];
    forall x | x in Kids(c, s, f) ensures x in s.log {
      var j :| 0 <= j < |Kids(c, s, f)| && Kids(c, s, f)[j] == x;
      assert KidOk(c, s.frames, f, j);
      var k := fr.kids[j];
      assert k in fr.kids;
      assert FrameData(c, s, k);
    }
  }

  /** Steps of one frame that touch neither tasks nor destination. */
  lemma DataStart(c: Config, s: State, a: Action)
    requires Data(c, s) && Guard(c, s, a) && (a.Enter? || a.Pass?)
    ensures Data(c, Next(c, s, a))
  {
    assert FrameData(c, s, a.f);
    DataLocal(c, s, Next(c, s, a), a.f);
  }

  lemma DataAcquire(c: Config, s: State, f: nat)
    requires Data(c, s) && Guard(c, s, Acquire(f))
    ensures Data(c, Next(c, s, Acquire(f)))
  {
    assert FrameData(c, s, f);
    DataLocal(c, s, Next(c, s, Acquire(f)), f);
  }

  lemma DataRecord(c: Config, s: State, a: Action)
    requires Data(c, s) && Guard(c, s, a) && (a.Note? || a.Report?)
    ensures Data(c, Next(c, s, a))
  {
    assert FrameData(c, s, a.f);
    DataLocal(c, s, Next(c, s, a), a.f);
  }

  lemma DataLeave(c: Config, s: State, a: Action)
    requires Data(c, s) && Guard(c, s, a) && (a.Abandon? || a.Release?)
    ensures Data(c, Next(c, s, a))
  {
    assert FrameData(c, s, a.f);
    DataLocal(c, s, Next(c, s, a), a.f);
  }

  lemma DataFinish(c: Config, s: State, f: nat, out: Err)
    requires Data(c, s) && Guard(c, s, Finish(f, out))
    ensures Data(c, Next(c, s, Finish(f, out)))
  {
    if s.frames[f].pc.op == Push && out.None? {
      DataLand(c, s, f);
    } else {
      assert FrameData(c, s, f);
      DataLocal(c, s, Next(c, s, Finish(f, out)), f);
    }
  }

  lemma DataGather(c: Config, s: State, f: nat)
    requires Data(c, s) && Shape(c, s.frames) && Guard(c, s, Gather(f))
    ensures Data(c, Next(c, s, Gather(f)))
  {
    if s.frames[f].pc.failed.None? { GatheredLanded(c, s, f); }
    assert FrameData(c, s, f);
    DataLocal(c, s, Next(c, s, Gather(f)), f);
  }

  lemma DataWake(c: Config, s: State, f: nat)
    requires Data(c, s) && Guard(c, s, Wake(f))
    ensures Data(c, Next(c, s, Wake(f)))
  {
    assert FrameData(c, s, f) && TaskData(c, s, s.frames[f].digest);
    DataLocal(c, s, Next(c, s, Wake(f)), f);
  }

  lemma DataCancel(c: Config, s: State)
    requires Data(c, s)
    ensures Data(c, s.(callerGone := true))
  {
    var s' := s.(callerGone := true);
    forall g | 0 <= g < |s'.frames| ensures FrameData(c, s', g) { assert FrameData(c, s, g); }
    forall d | d in s'.tasks ensures TaskData(c, s', d) { assert TaskData(c, s, d); }
    forall i | 0 <= i < |s'.log| ensures LogAt(c, s', i) { assert LogAt(c, s, i); }
  }

  lemma DataStep(c: Config, s: State, a: Action)
    requires Data(c, s) && Shape(c, s.frames) && Guard(c, s, a)
    ensures Data(c, Next(c, s, a))
  {
    match a
    case CallerCancels => DataCancel(c, s);
    case Ask(f) => DataAsk(c, s, f);
    case Wake(f) => DataWake(c, s, f);
    case Close(f) => DataClose(c, s, f);
    case Spawn(f) => DataSpawn(c, s, f);
    case Join(f) => DataJoin(c, s, f);
    case Finish(f, out) => DataFinish(c, s, f, out);
    case Gather(f) => DataGather(c, s, f);
    case Acquire(f) => DataAcquire(c, s, f);
    case Abandon(f) => DataLeave(c, s, a);
    case Release(f) => DataLeave(c, s, a);
    case Note(f) => DataRecord(c, s, a);
    case Report(f) => DataRecord(c, s, a);
    case _ => DataStart(c, s, a);
  }

  // ---------- slots ----------

  lemma {:induction false} HoldersUpdate(m: Discipline, frames: seq<Frame>, f: nat, fr: Frame)
    requires f < |frames|
    ensures Holders(m, frames[f := fr]) + (if Holds(m, frames[f].pc) then 1 else 0)
         == Holders(m, frames) + (if Holds(m, fr.pc) then 1 else 0)
    decreases |frames|
  {
    var n := |frames| - 1;
    var frames' := frames[f := fr];
    if f == n {
      assert frames'[..n] == frames[..n];
    } else {
      assert frames'[..n] == frames[..n][f := fr];
      HoldersUpdate(m, frames[..n], f, fr);
    }
  }

  /** While some frame holds a slot the count is positive. */
  lemma {:induction false} HolderExists(m: Discipline, frames: seq<Frame>) returns (f: nat)
    requires Holders(m, frames) > 0
    ensures f < |frames| && Holds(m, frames[f].pc)
    decreases |frames|
  {
    f := |frames| - 1;
    if !Holds(m, frames[f].pc) {
      f := HolderExists(m, frames[..f]);
    }
  }

  ghost predicate Slots(c: Config, s: State) {
    Holders(c.mode, s.frames) <= Clamp(c.limit)
  }

  /** Only taking a slot makes a frame a holder. */
  lemma OnlyAcquireHolds(c: Config, s: State, a: Action)
    requires Data(c, s) && Guard(c, s, a) && a != CallerCancels && !a.Acquire? && !a.Spawn? && !a.Join?
    ensures Holds(c.mode, Next(c, s, a).frames[a.f].pc) ==> Holds(c.mode, s.frames[a.f].pc)
  {
    assert FrameData(c, s, a.f);
  }

  lemma SlotsSpawn(c: Config, s: State, f: nat)
    requires Slots(c, s) && Guard(c, s, Spawn(f))
    ensures Slots(c, Next(c, s, Spawn(f)))
  {
    var frames' := Next(c, s, Spawn(f)).frames;
    SpawnMoves(c, s, f);
    HoldersUpdate(c.mode, s.frames, f, frames'[f]);
    assert frames'[..|s.frames|] == s.frames[f := frames'[f]];
  }

  lemma SlotsJoin(c: Config, s: State, f: nat)
    requires Slots(c, s) && Guard(c, s, Join(f))
    ensures Slots(c, Next(c, s, Join(f)))
  {
    var p := s.frames[f].parent;
    var done := s.frames[f].(pc := Joined(s.frames[f].pc.err));
    JoinMoves(c, s, f);
    HoldersUpdate(c.mode, s.frames, f, done);
    HoldersUpdate(c.mode, s.frames[f := done], p, Next(c, s, Join(f)).frames[p]);
  }

  lemma SlotsStep(c: Config, s: State, a: Action)
    requires Data(c, s) && Slots(c, s) && Guard(c, s, a)
    ensures Slots(c, Next(c, s, a))
  {
    if a == CallerCancels {
    } else if a.Spawn? {
      SlotsSpawn(c, s, a.f);
    } else if a.Join? {
      SlotsJoin(c, s, a.f);
    } else {
      var fr := Next(c, s, a).frames[a.f];
      OneFrameMoves(c, s, a);
      HoldersUpdate(c.mode, s.frames, a.f, fr);
      if !a.Acquire? { OnlyAcquireHolds(c, s, a); }
    }
  }

  // ---------- everything worked on is reachable from the root ----------

  ghost predicate FromRoot(c: Config, s: State) {
    && (forall f | 0 <= f < |s.frames| :: Reaches(c.refs, c.root, s.frames[f].digest))
    && (forall d | d in s.tasks :: Reaches(c.refs, c.root, d))
  }

  lemma FromRootSpawn(c: Config, s: State, f: nat)
    requires FromRoot(c, s) && Guard(c, s, Spawn(f))
    ensures FromRoot(c, Next(c, s, Spawn(f)))
  {
    var s' := Next(c, s, Spawn(f));
    var n := |s.frames|;
    ReachesStep(c.refs, c.root, s.frames[f].digest, s'.frames[n].digest);
    assert forall g | 0 <= g < n :: s'.frames[g].digest == s.frames[g].digest;
  }

  /** Any other step keeps the frames' digests and claims at most its own. */
  lemma StepDigests(c: Config, s: State, a: Action)
    requires Guard(c, s, a) && a != CallerCancels && !a.Spawn?
    ensures var s' := Next(c, s, a);
      |s'.frames| == |s.frames| && (forall g | 0 <= g < |s.frames| :: s'.frames[g].digest == s.frames[g].digest) &&
      s'.tasks.Keys <= s.tasks.Keys + {s.frames[a.f].digest}
  {
    if !a.Join? { OneFrameMoves(c, s, a); }
    StepTasks(c, s, a);
  }

  lemma StepTasks(c: Config, s: State, a: Action)
    requires Guard(c, s, a) && a != CallerCancels && !a.Spawn?
    ensures Next(c, s, a).tasks.Keys <= s.tasks.Keys + {s.frames[a.f].digest}
  {
  }

  lemma FromRootStep(c: Config, s: State, a: Action)
    requires FromRoot(c, s) && Guard(c, s, a)
    ensures FromRoot(c, Next(c, s, a))
  {
    if a == CallerCancels {
    } else if a.Spawn? {
      FromRootSpawn(c, s, a.f);
    } else {
      StepDigests(c, s, a);
    }
  }

  // ---------- every run ----------

  ghost predicate Inv(c: Config, s: State) {
    Shape(c, s.frames) && Data(c, s) && Slots(c, s) && FromRoot(c, s)
  }

  lemma InvInit(c: Config)
    ensures Inv(c, Init(c))
  {
    ShapeInit(c);
    DataInit(c);
    ReachesSelf(c.refs, c.root);
    assert Init(c).frames[..0] == [];
  }

  lemma InvStep(c: Config, s: State, a: Action)
    requires Inv(c, s) && Guard(c, s, a)
    ensures Inv(c, Next(c, s, a))
  {
    ShapeStep(c, s, a);
    DataStep(c, s, a);
    SlotsStep(c, s, a);
    FromRootStep(c, s, a);
  }

  lemma {:induction false} InvRun(c: Config, s: State, run: seq<Action>, t: State)
    requires Inv(c, s) && IsRun(c, s, run, t)
    ensures Inv(c, t)
    decreases |run|
  {
    if run != [] {
      InvStep(c, s, run[0]);
      InvRun(c, Next(c, s, run[0]), run[1..], t);
    }
  }

  lemma ReachableInv(c: Config, t: State)
    requires Reachable(c, t)
    ensures Inv(c, t)
  {
    var run :| IsRun(c, Init(c), run, t);
    InvInit(c);
    InvRun(c, Init(c), run, t);
  }
}
