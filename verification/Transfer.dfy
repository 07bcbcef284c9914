/** The bounded, deduplicating transfer as a transition system.

    A frame is one call of the client's transfer function: copier.copy on a
    descriptor, or the pack pusher's push of a file, manifest or index. Frames run
    in any interleaving; an action is one atomic step of one frame. The two clients
    use the budget with opposite disciplines, and both are runs of this machine. */
module Transfer {
  import opened Graph
  import opened Budgets

  // KeyThenSlot is the copier: Once with no slot held, slots taken inside.
  // SlotThenKey is the pack pusher: Once called while holding a slot.
  datatype Discipline = KeyThenSlot | SlotThenKey

  // Fetch reads the source (a manifest, or the local file a pack item names);
  // Push moves one blob to the destination.
  datatype Op = Fetch | Push

  datatype Pc =
    | Entry                          // called, context not looked at yet
    | Asking                         // about to lock the budget for the key
    | Waiting                        // the key is someone else's
    | SlotCheck(op: Op)              // Slot: the look at the context
    | SlotSelect(op: Op)             // Slot: the select between a slot and cancellation
    | Running(op: Op)                // the operation, with a slot held
    | Releasing(op: Op, err: Err)    // the operation is over, its slot not yet given back
    | Fan(failed: Err)               // Each over the references; failed is the group's first error
    | Finishing(err: Err)            // the claimed work returned, not yet recorded
    | Closing(err: Err)              // recorded, the task not yet closed
    | Returned(err: Err)             // the call returned to its caller
    | Recorded(err: Err)             // the caller's Each recorded the result
    | Joined(err: Err)               // the caller's Each is done with this call

  datatype Frame = Frame(digest: Digest, parent: nat, pos: nat, kids: seq<nat>, pc: Pc)

  datatype Config = Config(mode: Discipline, refs: Refs, root: Digest, limit: int, before: set<Digest>)

  datatype State = State(
    frames: seq<Frame>,              // every call made so far; frames[0] is the root's
    tasks: map<Digest, Task>,        // Budget.tasks
    failure: Err,                    // Budget.failure
    cancelled: set<nat>,             // frames whose group context is cancelled
    callerGone: bool,                // the caller's own context is cancelled
    dst: set<Digest>,                // what the destination holds
    log: seq<Digest>,                // history: pushes that succeeded, in order
    begun: set<(Op, Digest)>,        // history: operations started under a claimed key
    starts: nat,                     // history: how many times such an operation was started
    raised: set<nat>,                // history: genuine failures some operation returned
    reported: seq<nat>)              // history: genuine failures passed to Record, in order

  datatype Action =
    | CallerCancels
    | Enter(f: nat)
    | Ask(f: nat)
    | Wake(f: nat)                   // the awaited task closed
    | Abandon(f: nat)                // leaves because the context is cancelled
    | Pass(f: nat)                   // Slot's look found the context alive
    | Acquire(f: nat)
    | Finish(f: nat, out: Err)       // the operation returns out
    | Release(f: nat)
    | Spawn(f: nat)
    | Gather(f: nat)                 // Each returns
    | Note(f: nat)                   // Once records the result
    | Close(f: nat)
    | Report(f: nat)                 // Each records the result
    | Join(f: nat)

  const LOOP_CODE: nat := 0          // "reachable from itself"

  function Init(c: Config): State {
    State([Frame(c.root, 0, 0, [], Entry)], map[], None, {}, false, c.before, [], {}, 0, {}, [])
  }

  /** Each fans out only above a limit of 1 and over two positions or more. */
  predicate Parallel(c: Config, n: nat) {
    Clamp(c.limit) >= 2 && n >= 2
  }

  function Kids(c: Config, s: State, f: nat): seq<Digest>
    requires f < |s.frames|
  {
    Out(c.refs, s.frames[f].digest)
  }

  predicate Holds(m: Discipline, pc: Pc) {
    pc.Running? || pc.Releasing? ||
    (m == SlotThenKey && (pc.Asking? || pc.Waiting? || pc.Finishing? || pc.Closing?))
  }

  function Holders(m: Discipline, frames: seq<Frame>): nat {
    if frames == [] then 0
    else Holders(m, frames[..|frames| - 1]) + if Holds(m, frames[|frames| - 1].pc) then 1 else 0
  }

  /** A frame's context: its group's, its caller's group's, and so on to the caller's. */
  predicate Cancelled(s: State, f: nat)
    requires f < |s.frames|
    decreases f
  {
    var p := s.frames[f].parent;
    if f == 0 || p >= f then s.callerGone else p in s.cancelled || Cancelled(s, p)
  }

  /** The backstop: a frame above f is walking f's own digest. */
  predicate OnPath(s: State, f: nat, d: Digest)
    requires f < |s.frames|
    decreases f
  {
    var p := s.frames[f].parent;
    f != 0 && p < f && (s.frames[p].digest == d || OnPath(s, p, d))
  }

  predicate AllJoined(s: State, kids: seq<nat>) {
    forall k | k in kids :: k < |s.frames| && s.frames[k].pc.Joined?
  }

  function SetPc(s: State, f: nat, pc: Pc): State
    requires f < |s.frames|
  {
    s.(frames := s.frames[f := s.frames[f].(pc := pc)])
  }

  predicate Guard(c: Config, s: State, a: Action) {
    if a == CallerCancels then !s.callerGone
    else
      a.f < |s.frames| &&
      var fr := s.frames[a.f];
      var n := |Kids(c, s, a.f)|;
      match a
      case Enter(f) => fr.pc.Entry?
      case Ask(f) => fr.pc.Asking?
      case Wake(f) => fr.pc.Waiting? && fr.digest in s.tasks && s.tasks[fr.digest].Closed?
      case Abandon(f) => (fr.pc.Waiting? || fr.pc.SlotCheck? || fr.pc.SlotSelect?) && Cancelled(s, f)
      case Pass(f) => fr.pc.SlotCheck? && !Cancelled(s, f)
      case Acquire(f) => fr.pc.SlotSelect? && Holders(c.mode, s.frames) < Clamp(c.limit)
      case Finish(f, out) => fr.pc.Running?
      case Release(f) => fr.pc.Releasing?
      case Spawn(f) =>
        fr.pc.Fan? && |fr.kids| < n &&
        (Parallel(c, n) || (fr.pc.failed.None? && AllJoined(s, fr.kids)))
      case Gather(f) =>
        fr.pc.Fan? && AllJoined(s, fr.kids) &&
        (|fr.kids| >= n || (!Parallel(c, n) && !fr.pc.failed.None?))
      case Note(f) => fr.pc.Finishing?
      case Close(f) => fr.pc.Closing?
      case Report(f) => f > 0 && fr.pc.Returned?
      case Join(f) => f > 0 && fr.pc.Recorded? && fr.parent < f && s.frames[fr.parent].pc.Fan?
  }

  function Record(s: State, e: Err): State {
    s.(failure := Noted(s.failure, e),
       reported := if e.Fail? then s.reported + [e.code] else s.reported)
  }

  function Raise(s: State, e: Err): State {
    if e.Fail? then s.(raised := s.raised + {e.code}) else s
  }

  function Begin(s: State, op: Op, d: Digest): State {
    s.(begun := s.begun + {(op, d)}, starts := s.starts + 1)
  }

  function Land(s: State, d: Digest): State {
    s.(dst := s.dst + {d}, log := s.log + [d])
  }

  /** Once's locked section, and for the copier the first lines of walk. */
  function AskNext(c: Config, s: State, f: nat): State
    requires f < |s.frames|
  {
    var d := s.frames[f].digest;
    if d in s.tasks then SetPc(s, f, Waiting)
    else
      var claimed := s.(tasks := s.tasks[d := Open(f)]);
      if c.mode == SlotThenKey then SetPc(Begin(claimed, Push, d), f, Running(Push))
      else if OnPath(s, f, d) then SetPc(Raise(claimed, Fail(LOOP_CODE)), f, Finishing(Fail(LOOP_CODE)))
      else SetPc(claimed, f, SlotCheck(if d in c.refs then Fetch else Push))
  }

  function AcquireNext(c: Config, s: State, f: nat): State
    requires f < |s.frames| && s.frames[f].pc.SlotSelect?
  {
    if c.mode == SlotThenKey then SetPc(s, f, Running(Fetch))
    else
      var op := s.frames[f].pc.op;
      SetPc(Begin(s, op, s.frames[f].digest), f, Running(op))
  }

  function FinishNext(c: Config, s: State, f: nat, out: Err): State
    requires f < |s.frames| && s.frames[f].pc.Running?
  {
    var op := s.frames[f].pc.op;
    var s1 := Raise(s, out);
    var s2 := if op == Push && out.None? then Land(s1, s.frames[f].digest) else s1;
    SetPc(s2, f,
      if c.mode == KeyThenSlot then Releasing(op, out)
      else if op == Push then Finishing(out)
      else if out.None? then Asking
      else Releasing(Push, out))
  }

  function ReleaseNext(c: Config, s: State, f: nat): State
    requires f < |s.frames| && s.frames[f].pc.Releasing?
  {
    var pc := s.frames[f].pc;
    SetPc(s, f,
      if c.mode == SlotThenKey then Returned(pc.err)
      else if pc.op == Fetch && pc.err.None? then Fan(None)
      else Finishing(pc.err))
  }

  function SpawnNext(c: Config, s: State, f: nat): State
    requires f < |s.frames| && |s.frames[f].kids| < |Kids(c, s, f)|
  {
    var fr := s.frames[f];
    var kid := Frame(Kids(c, s, f)[|fr.kids|], f, |fr.kids|, [], Entry);
    s.(frames := s.frames[f := fr.(kids := fr.kids + [|s.frames|])] + [kid])
  }

  function GatherNext(c: Config, s: State, f: nat): State
    requires f < |s.frames| && s.frames[f].pc.Fan?
  {
    var failed := s.frames[f].pc.failed;
    SetPc(s, f,
      if failed.None? then SlotCheck(Push)
      else if c.mode == KeyThenSlot then Finishing(failed)
      else Returned(failed))
  }

  function JoinNext(c: Config, s: State, f: nat): State
    requires f < |s.frames| && s.frames[f].pc.Recorded?
    requires s.frames[f].parent < f && s.frames[s.frames[f].parent].pc.Fan?
  {
    var e := s.frames[f].pc.err;
    var p := s.frames[f].parent;
    var failed := s.frames[p].pc.failed;
    var s1 := SetPc(SetPc(s, f, Joined(e)), p, Fan(if failed.None? then e else failed));
    if !e.None? && Parallel(c, |Kids(c, s, p)|) then s1.(cancelled := s1.cancelled + {p}) else s1
  }

  function Next(c: Config, s: State, a: Action): State
    requires Guard(c, s, a)
  {
    match a
    case CallerCancels => s.(callerGone := true)
    case Enter(f) =>
      SetPc(s, f,
        if c.mode == SlotThenKey then Fan(None)
        else if Cancelled(s, f) then Returned(Ctx)
        else Asking)
    case Ask(f) => AskNext(c, s, f)
    case Wake(f) =>
      var e := s.tasks[s.frames[f].digest].err;
      SetPc(s, f, if c.mode == KeyThenSlot then Returned(e) else Releasing(Push, e))
    case Abandon(f) =>
      SetPc(s, f,
        if s.frames[f].pc.Waiting? then
          (if c.mode == KeyThenSlot then Returned(Ctx) else Releasing(Push, Ctx))
        else if c.mode == KeyThenSlot then Finishing(Ctx) else Returned(Ctx))
    case Pass(f) => SetPc(s, f, SlotSelect(s.frames[f].pc.op))
    case Acquire(f) => AcquireNext(c, s, f)
    case Finish(f, out) => FinishNext(c, s, f, out)
    case Release(f) => ReleaseNext(c, s, f)
    case Spawn(f) => SpawnNext(c, s, f)
    case Gather(f) => GatherNext(c, s, f)
    case Note(f) => SetPc(Record(s, s.frames[f].pc.err), f, Closing(s.frames[f].pc.err))
    case Close(f) =>
      var e := s.frames[f].pc.err;
      SetPc(s.(tasks := s.tasks[s.frames[f].digest := Closed(e)]), f,
        if c.mode == KeyThenSlot then Returned(e) else Releasing(Push, e))
    case Report(f) => SetPc(Record(s, s.frames[f].pc.err), f, Recorded(s.frames[f].pc.err))
    case Join(f) => JoinNext(c, s, f)
  }

  /** A run is a sequence of actions, each enabled where it is taken. */
  ghost predicate IsRun(c: Config, s: State, run: seq<Action>, t: State)
    decreases |run|
  {
    if run == [] then s == t
    else Guard(c, s, run[0]) && IsRun(c, Next(c, s, run[0]), run[1..], t)
  }

  ghost predicate Reachable(c: Config, t: State) {
    exists run :: IsRun(c, Init(c), run, t)
  }

  predicate Done(s: State) {
    |s.frames| > 0 && s.frames[0].pc.Returned?
  }
}
