/** At a limit of 1 a copy claims every digest as what the sequential walk comes across it as first. */
module TransferFirst {
  import opened Graph
  import opened Budgets
  import opened Transfer
  import opened TransferInvariant
  import opened TransferResults
  import opened TransferCause
  import opened TransferLoops
  import opened TransferRoot
  import opened TransferSerial
  import opened TransferKinds
  import opened TransferClaims

  // ---------- the walk ----------

  ghost function DocDigests(docs: Docs): set<Digest> {
    set n | n in docs :: n.digest
  }

  lemma FewerDocs(docs: Docs, claims: Claims, n: Node)
    requires n in docs && n.digest !in claims
    ensures |DocDigests(docs) - claims[n.digest := n.kind].Keys| < |DocDigests(docs) - claims.Keys|
  {
    assert n.digest in DocDigests(docs);
    FewerLeft(DocDigests(docs), claims.Keys, claims[n.digest := n.kind].Keys, n.digest);
  }

  /** The claims once n has been walked: n as what it is called, then what it refers to, in order. It ends over
      any references, unclaimed documents being the measure. */
  ghost function Walk(docs: Docs, claims: Claims, n: Node): (out: Claims)
    ensures Extends(claims, out) && n.digest in out
    decreases |DocDigests(docs) - claims.Keys|, 0, 0
  {
    if n.digest in claims then claims
    else if n !in docs then claims[n.digest := n.kind]
    else
      FewerDocs(docs, claims, n);
      WalkAll(docs, claims[n.digest := n.kind], docs[n])
  }

  ghost function WalkAll(docs: Docs, claims: Claims, ns: seq<Node>): (out: Claims)
    ensures Extends(claims, out)
    decreases |DocDigests(docs) - claims.Keys|, 1, |ns|
  {
    if ns == [] then claims
    else
      var first := Walk(docs, claims, ns[0]);
      CardinalityMonotone(DocDigests(docs) - first.Keys, DocDigests(docs) - claims.Keys);
      WalkAll(docs, first, ns[1..])
  }

  /** What the walk from the root claims. */
  ghost function FirstClaims(k: Copy): Claims {
    Walk(k.docs, map[], k.root)
  }

  // ---------- what is still to be claimed ----------

  datatype Stage = Before | Within | Past

  /** Before a call's digest is asked for, while its document is being read and followed, and after. */
  function StageOf(pc: Pc): Stage {
    match pc
    case Entry => Before
    case Asking => Before
    case SlotCheck(op) => if op == Fetch then Within else Past
    case SlotSelect(op) => if op == Fetch then Within else Past
    case Running(op) => if op == Fetch then Within else Past
    case Releasing(op, _) => if op == Fetch then Within else Past
    case Fan(_) => Within
    case _ => Past
  }

  /** The claims once a document's references from the j-th on have been walked. */
  ghost function RestClaims(docs: Docs, claims: Claims, n: Node, j: nat): Claims {
    var ns := Refers(docs, n);
    WalkAll(docs, claims, if j <= |ns| then ns[j..] else [])
  }

  /** The claims once the innermost call is over. */
  ghost function AfterClaims(docs: Docs, claims: Claims, n: Node, j: nat, stage: Stage): Claims {
    match stage
    case Before => Walk(docs, claims, n)
    case Within => RestClaims(docs, claims, n, j)
    case Past => claims
  }

  /** The claims once the calls above it are over too. */
  ghost function RemainingClaims(docs: Docs, frames: seq<Frame>, kinds: seq<Kind>, f: nat, claims: Claims): Claims
    requires f < |frames| == |kinds|
    decreases f
  {
    var p := frames[f].parent;
    if f == 0 || p >= f then claims
    else
      RemainingClaims(docs, frames, kinds, p, RestClaims(docs, claims, Node(frames[p].digest, kinds[p]), |frames[p].kids|))
  }

  lemma {:induction false} RemainingClaimsSame(docs: Docs, frames: seq<Frame>, kinds: seq<Kind>,
                                               frames': seq<Frame>, kinds': seq<Kind>, f: nat, claims: Claims)
    requires f < |frames| == |kinds| && f < |frames'| == |kinds'| && frames'[f].parent == frames[f].parent
    requires forall g | 0 <= g < f :: frames'[g] == frames[g] && kinds'[g] == kinds[g]
    ensures RemainingClaims(docs, frames', kinds', f, claims) == RemainingClaims(docs, frames, kinds, f, claims)
    decreases f
  {
    var p := frames[f].parent;
    if f != 0 && p < f {
      var rest := RestClaims(docs, claims, Node(frames[p].digest, kinds[p]), |frames[p].kids|);
      RemainingClaimsSame(docs, frames, kinds, frames', kinds', p, rest);
    }
  }

  lemma {:induction false} RemainingExtends(docs: Docs, frames: seq<Frame>, kinds: seq<Kind>, f: nat, claims: Claims)
    requires f < |frames| == |kinds|
    ensures Extends(claims, RemainingClaims(docs, frames, kinds, f, claims))
    decreases f
  {
    var p := frames[f].parent;
    if f != 0 && p < f {
      RemainingExtends(docs, frames, kinds, p, RestClaims(docs, claims, Node(frames[p].digest, kinds[p]), |frames[p].kids|));
    }
  }

  /** What is claimed already and what is still to be claimed come to the walk's claims. */
  ghost predicate OnTheWay(k: Copy, m: Kinded, f: nat) {
    && |m.kinds| == |m.base.frames| && Innermost(m.base.frames, f)
    && RemainingClaims(k.docs, m.base.frames, m.kinds, f, After(k, m, f)) == FirstClaims(k)
  }

  ghost function After(k: Copy, m: Kinded, f: nat): Claims
    requires f < |m.base.frames| == |m.kinds|
  {
    AfterClaims(k.docs, m.claims, NodeOf(m, f), |m.base.frames[f].kids|, StageOf(m.base.frames[f].pc))
  }

  lemma SoFarIsFirst(k: Copy, m: Kinded, f: nat)
    requires OnTheWay(k, m, f)
    ensures Extends(After(k, m, f), FirstClaims(k)) && Extends(m.claims, FirstClaims(k))
  {
    RemainingExtends(k.docs, m.base.frames, m.kinds, f, After(k, m, f));
  }

  // ---------- every step ----------

  /** The innermost call moves and stays the innermost. */
  lemma StaysOnTheWay(k: Copy, m: Kinded, t: Kinded, f: nat)
    requires OnTheWay(k, m, f) && Moves(m.base, t.base, f) && !t.base.frames[f].pc.Joined? && t.kinds == m.kinds
    requires After(k, t, f) == After(k, m, f)
    ensures OnTheWay(k, t, f)
  {
    InnermostStays(m.base.frames, t.base.frames, f);
    RemainingClaimsSame(k.docs, m.base.frames, m.kinds, t.base.frames, t.kinds, f, After(k, m, f));
  }

  lemma StageStays(c: Config, s: State, a: Action)
    requires c.mode == KeyThenSlot && Guard(c, s, a)
    requires a.Enter? || a.Abandon? || a.Pass? || a.Note? || a.Close? || a.Report? || a.Wake?
    requires Moves(s, Next(c, s, a), a.f) && ErrOf(Next(c, s, a).frames[a.f].pc).None?
    ensures StageOf(Next(c, s, a).frames[a.f].pc) == StageOf(s.frames[a.f].pc)
  {
  }

  lemma StageStaysAtWork(c: Config, s: State, a: Action)
    requires c.mode == KeyThenSlot && Guard(c, s, a) && (a.Acquire? || a.Finish? || a.Release?)
    requires Moves(s, Next(c, s, a), a.f)
    requires ErrOf(s.frames[a.f].pc).None? && ErrOf(Next(c, s, a).frames[a.f].pc).None?
    ensures StageOf(Next(c, s, a).frames[a.f].pc) == StageOf(s.frames[a.f].pc)
  {
  }

  /** Once every reference has been called, nothing of the document is left to walk. */
  lemma GatheredRest(k: Copy, m: Kinded, f: nat)
    requires Linked(m) && Enabled(k, m, Gather(f)) && m.base.frames[f].pc == Fan(None)
    ensures RestClaims(k.docs, m.claims, NodeOf(m, f), |m.base.frames[f].kids|) == m.claims
  {
    FanRefers(k, m, f);
  }

  lemma GatherPast(c: Config, s: State, f: nat)
    requires c.mode == KeyThenSlot && Guard(c, s, Gather(f)) && s.frames[f].pc == Fan(None)
    ensures Next(c, s, Gather(f)).frames == s.frames[f := s.frames[f].(pc := SlotCheck(Push))]
  {
  }

  lemma AskOnTheWay(k: Copy, c: Config, m: Kinded, t: Kinded, f: nat)
    requires OnTheWay(k, m, f) && Linked(m) && c.mode == KeyThenSlot && Guard(c, m.base, Ask(f)) && m.base.frames[f].kids == []
    requires t.base == Next(c, m.base, Ask(f)) && t.kinds == m.kinds && t.claims == ClaimsAfter(m, Ask(f))
    requires c.refs == Followed(k.docs, t.claims) && f < |t.base.frames| && ErrOf(t.base.frames[f].pc).None?
    ensures OnTheWay(k, t, f)
  {
    OneFrameMoves(c, m.base, Ask(f));
    AskStage(c, m.base, f);
    AskAfter(k, m, t, f);
    StaysOnTheWay(k, m, t, f);
  }

  lemma AskStage(c: Config, s: State, f: nat)
    requires c.mode == KeyThenSlot && Guard(c, s, Ask(f)) && Moves(s, Next(c, s, Ask(f)), f)
    requires ErrOf(Next(c, s, Ask(f)).frames[f].pc).None?
    ensures var pc := Next(c, s, Ask(f)).frames[f].pc; var d := s.frames[f].digest;
      !pc.Joined? && StageOf(pc) == if d !in s.tasks && d in c.refs then Within else Past
  {
  }

  lemma AskAfter(k: Copy, m: Kinded, t: Kinded, f: nat)
    requires Linked(m) && f < |m.kinds| && Moves(m.base, t.base, f) && t.kinds == m.kinds && t.claims == ClaimsAfter(m, Ask(f))
    requires m.base.frames[f].pc == Asking && m.base.frames[f].kids == []
    requires var d := m.base.frames[f].digest;
      StageOf(t.base.frames[f].pc) == if d !in m.base.tasks && d in Followed(k.docs, t.claims) then Within else Past
    ensures After(k, t, f) == After(k, m, f)
  {
    var n := NodeOf(m, f);
    if n.digest !in m.claims {
      FollowedIf(k, t.claims, n);
      assert Refers(k.docs, n)[0..] == Refers(k.docs, n);
    }
  }

  lemma RestNext(docs: Docs, claims: Claims, n: Node, j: nat)
    requires j < |Refers(docs, n)|
    ensures RestClaims(docs, Walk(docs, claims, Refers(docs, n)[j]), n, j + 1) == RestClaims(docs, claims, n, j)
  {
    var ns := Refers(docs, n);
    assert ns[j..][0] == ns[j] && ns[j..][1..] == ns[j + 1..];
  }

  /** The next reference of the innermost call becomes the innermost call. */
  lemma SpawnOnTheWay(k: Copy, m: Kinded, f: nat)
    requires OnTheWay(k, m, f) && Linked(m) && Enabled(k, m, Spawn(f)) && m.base.frames[f].pc == Fan(None)
    ensures OnTheWay(k, Step(k, m, Spawn(f)), |m.kinds|)
  {
    var ns, j := Refers(k.docs, NodeOf(m, f)), |m.base.frames[f].kids|;
    SpawnMoves(At(k, m.claims), m.base, f);
    FanRefers(k, m, f);
    PushedOnTheWay(k, m, Step(k, m, Spawn(f)), f);
  }

  lemma PushedOnTheWay(k: Copy, m: Kinded, t: Kinded, f: nat)
    requires OnTheWay(k, m, f) && m.base.frames[f].pc == Fan(None) && t.claims == m.claims
    requires |m.base.frames[f].kids| < |Refers(k.docs, NodeOf(m, f))|
    requires var j, n := |m.base.frames[f].kids|, Refers(k.docs, NodeOf(m, f))[|m.base.frames[f].kids|];
      t.base.frames == m.base.frames[f := m.base.frames[f].(kids := m.base.frames[f].kids + [|m.base.frames|])]
        + [Frame(n.digest, f, j, [], Entry)] && t.kinds == m.kinds + [n.kind]
    ensures OnTheWay(k, t, |m.kinds|)
  {
    var j, n := |m.base.frames[f].kids|, |m.kinds|;
    var kid := Refers(k.docs, NodeOf(m, f))[j];
    InnermostPush(m.base.frames, t.base.frames, f);
    assert NodeOf(t, n) == kid && NodeOf(t, f) == NodeOf(m, f);
    RestNext(k.docs, m.claims, NodeOf(m, f), j);
    RemainingClaimsSame(k.docs, m.base.frames, m.kinds, t.base.frames, t.kinds, f, After(k, m, f));
  }

  /** The innermost call is over and its caller becomes the innermost. */
  lemma JoinOnTheWay(k: Copy, c: Config, m: Kinded, t: Kinded, f: nat)
    requires OnTheWay(k, m, f) && Shape(c, m.base.frames) && Guard(c, m.base, Join(f)) && m.base.frames[f].pc == Recorded(None)
    requires t.base == Next(c, m.base, Join(f)) && t.kinds == m.kinds && t.claims == m.claims
    ensures OnTheWay(k, t, m.base.frames[f].parent)
  {
    InnermostPop(c, m.base.frames, m.base.frames[f := m.base.frames[f].(pc := Joined(None))], f);
    JoinsClean(c, m.base, f);
    PoppedOnTheWay(k, m, t, f);
  }

  lemma PoppedOnTheWay(k: Copy, m: Kinded, t: Kinded, f: nat)
    requires OnTheWay(k, m, f) && 0 < f && m.base.frames[f].parent < f && m.base.frames[f].pc == Recorded(None)
    requires t.base.frames == m.base.frames[f := m.base.frames[f].(pc := Joined(None))]
    requires t.kinds == m.kinds && t.claims == m.claims
    requires t.base.frames[m.base.frames[f].parent].pc == Fan(None) && Innermost(t.base.frames, m.base.frames[f].parent)
    ensures OnTheWay(k, t, m.base.frames[f].parent)
  {
    var p := m.base.frames[f].parent;
    assert NodeOf(t, p) == NodeOf(m, p);
    RemainingClaimsSame(k.docs, m.base.frames, m.kinds, t.base.frames, t.kinds, p, After(k, t, p));
  }

  lemma GatherOnTheWay(k: Copy, m: Kinded, t: Kinded, f: nat)
    requires OnTheWay(k, m, f) && m.base.frames[f].pc == Fan(None) && t.kinds == m.kinds && t.claims == m.claims
    requires t.base.frames == m.base.frames[f := m.base.frames[f].(pc := SlotCheck(Push))]
    requires RestClaims(k.docs, m.claims, NodeOf(m, f), |m.base.frames[f].kids|) == m.claims
    ensures OnTheWay(k, t, f)
  {
    StaysOnTheWay(k, m, t, f);
  }

  lemma QuietOnTheWay(k: Copy, c: Config, m: Kinded, t: Kinded, a: Action)
    requires c.mode == KeyThenSlot && Guard(c, m.base, a) && a != CallerCancels && OnTheWay(k, m, a.f)
    requires !a.Ask? && !a.Spawn? && !a.Join? && !a.Gather?
    requires t.base == Next(c, m.base, a) && t.kinds == m.kinds && t.claims == m.claims
    requires ErrOf(m.base.frames[a.f].pc).None? && a.f < |t.base.frames| && ErrOf(t.base.frames[a.f].pc).None?
    ensures OnTheWay(k, t, a.f)
  {
    OneFrameMoves(c, m.base, a);
    StaysOpen(c, m.base, a);
    if a.Acquire? || a.Finish? || a.Release? {
      StageStaysAtWork(c, m.base, a);
    } else {
      StageStays(c, m.base, a);
    }
    assert NodeOf(t, a.f) == NodeOf(m, a.f);
    StaysOnTheWay(k, m, t, a.f);
  }

  /** A step in which no error comes up, at a limit of 1. */
  lemma NextOnTheWay(k: Copy, m: Kinded, f: nat, a: Action) returns (f': nat)
    requires k.limit <= 1 && OnTheWay(k, m, f) && Linked(m) && Enabled(k, m, a) && a != CallerCancels
    requires Shape(At(k, m.claims), m.base.frames) && AllClean(m.base) && AllClean(Step(k, m, a).base)
    ensures OnTheWay(k, Step(k, m, a), f')
  {
    var t := Step(k, m, a);
    OnlyTopMoves(At(k, m.claims), m.base, f, a);
    assert ErrOf(m.base.frames[f].pc).None? && ShapeAt(At(k, m.claims), m.base.frames, f);
    f' := f;
    if a.Spawn? {
      SpawnOnTheWay(k, m, f);
      f' := |m.kinds|;
    } else if a.Join? {
      JoinOnTheWay(k, At(k, m.claims), m, t, f);
      f' := m.base.frames[f].parent;
    } else if a.Gather? {
      GatherPast(At(k, m.claims), m.base, f);
      GatheredRest(k, m, f);
      GatherOnTheWay(k, m, t, f);
    } else if a.Ask? {
      OneFrameMoves(At(k, t.claims), m.base, a);
      AskOnTheWay(k, At(k, t.claims), m, t, f);
    } else {
      OneFrameMoves(At(k, m.claims), m.base, a);
      QuietOnTheWay(k, At(k, m.claims), m, t, a);
    }
  }

  // ---------- every run ----------

  lemma {:induction false} KindedCleanStart(k: Copy, m: Kinded, run: seq<Action>, t: Kinded)
    requires IsKindedRun(k, m, run, t) && AllClean(t.base)
    ensures AllClean(m.base)
    decreases |run|
  {
    if run != [] {
      KindedCleanStart(k, Step(k, m, run[0]), run[1..], t);
      CleanBefore(At(k, ClaimsAfter(m, run[0])), m.base, run[0]);
    }
  }

  lemma StartsOnTheWay(k: Copy)
    ensures OnTheWay(k, Start(k), 0)
  {
  }

  lemma CancelOnTheWay(k: Copy, m: Kinded, f: nat)
    requires OnTheWay(k, m, f) && Enabled(k, m, CallerCancels)
    ensures OnTheWay(k, Step(k, m, CallerCancels), f)
  {
    assert NodeOf(Step(k, m, CallerCancels), f) == NodeOf(m, f);
  }

  lemma {:induction false} RunOnTheWay(k: Copy, pre: seq<Action>, m: Kinded, f: nat, run: seq<Action>, t: Kinded)
    returns (end: nat)
    requires k.limit <= 1 && OnTheWay(k, m, f) && Linked(m) && RunsUnder(k, m.claims, pre, m.base)
    requires IsKindedRun(k, m, run, t) && AllClean(t.base)
    ensures OnTheWay(k, t, end)
    decreases |run|
  {
    if run == [] {
      end := f;
    } else {
      var f' := StepOnTheWay(k, pre, m, f, run, t);
      OneStep(k, pre, m, run[0]);
      end := RunOnTheWay(k, pre + [run[0]], Step(k, m, run[0]), f', run[1..], t);
    }
  }

  lemma StepOnTheWay(k: Copy, pre: seq<Action>, m: Kinded, f: nat, run: seq<Action>, t: Kinded) returns (f': nat)
    requires k.limit <= 1 && OnTheWay(k, m, f) && Linked(m) && RunsUnder(k, m.claims, pre, m.base)
    requires run != [] && IsKindedRun(k, m, run, t) && AllClean(t.base)
    ensures OnTheWay(k, Step(k, m, run[0]), f')
  {
    KindedCleanStart(k, Step(k, m, run[0]), run[1..], t);
    f' := OneOnTheWay(k, pre, m, f, run[0]);
  }

  lemma RunShape(k: Copy, pre: seq<Action>, m: Kinded)
    requires RunsUnder(k, m.claims, pre, m.base)
    ensures Shape(At(k, m.claims), m.base.frames)
  {
    var c := At(k, m.claims);
    assert IsRun(c, Init(c), pre, m.base);
    ReachableInv(c, m.base);
  }

  lemma EndIsFirst(k: Copy, t: Kinded, end: nat)
    requires OnTheWay(k, t, end) && |t.base.frames| > 0 && t.base.frames[0].pc == Returned(None)
    ensures t.claims == FirstClaims(k)
  {
    assert end == 0;
  }

  lemma StartRuns(k: Copy)
    ensures RunsUnder(k, map[], [], Start(k).base)
  {
  }

  /** At a limit of 1 every successful copy claims what the walk does. */
  lemma ClaimsFirstMet(k: Copy, t: Kinded)
    requires k.limit <= 1 && Copies(k, t)
    ensures t.claims == FirstClaims(k)
  {
    var run :| IsKindedRun(k, Start(k), run, t);
    CleanAtEnd(k, run, t);
    LinkedStart(k);
    StartsOnTheWay(k);
    StartRuns(k);
    var end := RunOnTheWay(k, [], Start(k), 0, run, t);
    EndIsFirst(k, t, end);
  }

  lemma CleanAtEnd(k: Copy, run: seq<Action>, t: Kinded)
    requires IsKindedRun(k, Start(k), run, t) && Copies(k, t)
    ensures AllClean(t.base)
  {
    RunsAsClaimed(k, run, t);
    SuccessIsAllClean(At(k, t.claims), t.base);
  }

  // ---------- and the walk comes about ----------

  /** Over the walk's claims, a step of the transfer is a step of the copy. */
  lemma FirstStep(k: Copy, m: Kinded, f: nat, a: Action)
    requires k.limit <= 1 && Linked(m) && OnTheWay(k, m, f) && Guard(At(k, FirstClaims(k)), m.base, a)
    ensures Enabled(k, m, a) && Step(k, m, a).base == Next(At(k, FirstClaims(k)), m.base, a)
  {
    var claims := ClaimsAfter(m, a);
    NextClaimsFirst(k, m, f, a);
    ClaimsGrow(m, a);
    ClaimsAlike(k, m, a, claims, FirstClaims(k));
    AlikeGuard(At(k, FirstClaims(k)), At(k, claims), m.base, a);
    StepAlike(k, m, a, FirstClaims(k));
  }

  lemma NextClaimsFirst(k: Copy, m: Kinded, f: nat, a: Action)
    requires k.limit <= 1 && Linked(m) && OnTheWay(k, m, f) && Guard(At(k, FirstClaims(k)), m.base, a)
    ensures Extends(ClaimsAfter(m, a), FirstClaims(k))
  {
    SoFarIsFirst(k, m, f);
    if ClaimsNow(m, a) {
      OnlyTopMoves(At(k, FirstClaims(k)), m.base, f, a);
      ClaimThenWalk(k.docs, m.claims, NodeOf(m, f));
    }
  }

  lemma ClaimThenWalk(docs: Docs, claims: Claims, n: Node)
    requires n.digest !in claims
    ensures Extends(claims[n.digest := n.kind], Walk(docs, claims, n))
  {
  }

  lemma {:induction false} FirstLift(k: Copy, pre: seq<Action>, m: Kinded, f: nat, run: seq<Action>, s: State)
    returns (t: Kinded)
    requires k.limit <= 1 && OnTheWay(k, m, f) && Linked(m) && RunsUnder(k, m.claims, pre, m.base)
    requires IsRun(At(k, FirstClaims(k)), m.base, run, s) && AllClean(s)
    ensures IsKindedRun(k, m, run, t) && t.base == s
    decreases |run|
  {
    if run == [] {
      t := m;
    } else {
      var a, c := run[0], At(k, FirstClaims(k));
      FirstStep(k, m, f, a);
      OneStep(k, pre, m, a);
      CleanStart(c, Next(c, m.base, a), run[1..], s);
      var f' := OneOnTheWay(k, pre, m, f, a);
      t := FirstLift(k, pre + [a], Step(k, m, a), f', run[1..], s);
    }
  }

  lemma OneOnTheWay(k: Copy, pre: seq<Action>, m: Kinded, f: nat, a: Action) returns (f': nat)
    requires k.limit <= 1 && OnTheWay(k, m, f) && Linked(m) && RunsUnder(k, m.claims, pre, m.base)
    requires Enabled(k, m, a) && AllClean(Step(k, m, a).base)
    ensures OnTheWay(k, Step(k, m, a), f')
  {
    CleanBefore(At(k, ClaimsAfter(m, a)), m.base, a);
    if a == CallerCancels {
      CancelOnTheWay(k, m, f);
      f' := f;
    } else {
      RunShape(k, pre, m);
      f' := NextOnTheWay(k, m, f, a);
    }
  }

  /** At a limit of 1 a copy can succeed exactly when what the walk claims is followed along no loop; and then
      every success leaves the old content plus what the walk claims. */
  lemma OutcomeAtOne(k: Copy)
    requires k.limit <= 1
    ensures (exists t :: Copies(k, t)) <==> LoopFree(Followed(k.docs, FirstClaims(k)), k.root.digest)
    ensures forall t | Copies(k, t) :: t.base.dst == k.before + FirstClaims(k).Keys
  {
    forall t | Copies(k, t)
      ensures t.base.dst == k.before + FirstClaims(k).Keys && LoopFree(Followed(k.docs, FirstClaims(k)), k.root.digest)
    {
      ClaimsFirstMet(k, t);
      SuccessIsComplete(k, t);
      ArisesAsClaimed(k, t);
      SuccessIsLoopFree(At(k, t.claims), t.base);
    }
    if LoopFree(Followed(k.docs, FirstClaims(k)), k.root.digest) { FirstComesAbout(k); }
  }

  /** So then a successful copy is one of the whole closure if and only if the walk's claims are whole. */
  lemma ClosureAtOneIff(k: Copy, t: Kinded)
    requires k.limit <= 1 && Copies(k, t)
    ensures (forall x :: x in t.base.log <==> InClosure(k, x)) <==> Whole(k, FirstClaims(k))
  {
    ClaimsFirstMet(k, t);
    SuccessIsComplete(k, t);
    SuccessIsClosureIff(k, t);
    WholeIff(k, t.claims);
  }

  lemma FirstComesAbout(k: Copy)
    requires k.limit <= 1 && LoopFree(Followed(k.docs, FirstClaims(k)), k.root.digest)
    ensures exists t :: Copies(k, t)
  {
    var c := At(k, FirstClaims(k));
    var run, s := FaultlessEnds(c, [], Init(c));
    assert [] + run == run;
    SuccessIsAllClean(c, s);
    LinkedStart(k);
    StartsOnTheWay(k);
    StartRuns(k);
    var t := FirstLift(k, [], Start(k), 0, run, s);
    RunArises(k, run, t);
    assert Copies(k, t);
  }

  // ---------- one digest as two kinds ----------

  /** Index 1 lists manifests 2 and 3; manifest 2 lists 3 as a layer. */
  const MIXED: Docs := map[
    Node(1, Index) := [Node(2, Manifest), Node(3, Manifest)],
    Node(2, Manifest) := [Node(5, Blob), Node(3, Blob)],
    Node(3, Manifest) := [Node(5, Blob), Node(7, Blob)]]

  // Digest 3 claimed as a layer, and as the manifest it is.
  const AS_LAYER: Claims := map[1 := Index, 2 := Manifest, 5 := Blob, 3 := Blob]
  const AS_MANIFEST: Claims := map[1 := Index, 2 := Manifest, 3 := Manifest, 5 := Blob, 7 := Blob]

  function MixedCopy(limit: int): Copy {
    Copy(MIXED, Node(1, Index), limit, {})
  }

  lemma WalkPair(docs: Docs, claims: Claims, x: Node, y: Node)
    ensures WalkAll(docs, claims, [x, y]) == Walk(docs, Walk(docs, claims, x), y)
  {
    assert [x, y][1..] == [y] && [y][1..] == [];
    WalkOne(docs, Walk(docs, claims, x), y);
  }

  lemma WalkOne(docs: Docs, claims: Claims, y: Node)
    ensures WalkAll(docs, claims, [y]) == Walk(docs, claims, y)
  {
    assert [y][1..] == [];
  }

  lemma WalkDoc(docs: Docs, claims: Claims, n: Node, x: Node, y: Node)
    requires n in docs && docs[n] == [x, y] && n.digest !in claims
    ensures Walk(docs, claims, n) == Walk(docs, Walk(docs, claims[n.digest := n.kind], x), y)
  {
    WalkPair(docs, claims[n.digest := n.kind], x, y);
  }

  lemma WalkLeaf(docs: Docs, claims: Claims, n: Node)
    requires n !in docs && n.digest !in claims
    ensures Walk(docs, claims, n) == claims[n.digest := n.kind]
  {
  }

  lemma MixedWalk(limit: int)
    ensures FirstClaims(MixedCopy(limit)) == AS_LAYER
  {
    var a := map[1 := Index];
    var b := a[2 := Manifest];
    WalkDoc(MIXED, map[], Node(1, Index), Node(2, Manifest), Node(3, Manifest));
    WalkDoc(MIXED, a, Node(2, Manifest), Node(5, Blob), Node(3, Blob));
    WalkLeaf(MIXED, b, Node(5, Blob));
    WalkLeaf(MIXED, b[5 := Blob], Node(3, Blob));
    assert b[5 := Blob][3 := Blob] == AS_LAYER;
  }

  /** In this order references go down: 1, then 2, then 3, then the leaves. */
  function MixedRank(d: Digest): nat {
    if d == 1 then 3 else if d == 2 then 2 else if d == 3 then 1 else 0
  }

  lemma MixedFalls(n: Node, c: Node)
    requires c in Refers(MIXED, n)
    ensures MixedRank(c.digest) < MixedRank(n.digest)
  {
  }

  lemma MixedLoopFree(claims: Claims)
    ensures LoopFree(Followed(MIXED, claims), 1)
  {
    var g := Followed(MIXED, claims);
    forall d, x | x in Out(g, d) ensures MixedRank(x) < MixedRank(d) {
      FollowedOn(MixedCopy(1), claims, d, x);
      var n :| n in Refers(MIXED, Claimed(claims, d)) && n.digest == x;
      MixedFalls(Claimed(claims, d), n);
    }
    RankedIsLoopFree(g, 1, MixedRank);
  }

  lemma MixedReached()
    ensures InClosure(MixedCopy(1), 7)
  {
    var k := MixedCopy(1);
    assert RefPath(k.docs, [k.root]) && Reached(k, k.root);
    assert Refers(MIXED, k.root)[1] == Node(3, Manifest);
    ReachedOn(k, k.root, Node(3, Manifest));
    assert Refers(MIXED, Node(3, Manifest))[1] == Node(7, Blob);
    ReachedOn(k, Node(3, Manifest), Node(7, Blob));
  }

  /** Some successful copy leaves exactly this. */
  ghost predicate CanLeave(k: Copy, dst: set<Digest>) {
    exists t :: Copies(k, t) && t.base.dst == dst
  }

  lemma LayerKeys()
    ensures {} + AS_LAYER.Keys == {1, 2, 3, 5} && {} + AS_MANIFEST.Keys == {1, 2, 3, 5, 7}
  {
  }

  /** At a limit of 1 a copy of this image can succeed, and however it does it leaves out layer 7. */
  lemma MixedLosesLayer()
    ensures InClosure(MixedCopy(1), 7)
    ensures forall dst :: CanLeave(MixedCopy(1), dst) <==> dst == {1, 2, 3, 5}
  {
    var k := MixedCopy(1);
    MixedWalk(1);
    MixedLoopFree(AS_LAYER);
    OutcomeAtOne(k);
    MixedReached();
    LayerKeys();
    var t :| Copies(k, t);
    assert CanLeave(k, t.base.dst);
  }

  lemma LedFirst(k: Copy, claims: Claims, n: Node, j: nat)
    requires LedTo(k, claims, n) && ClaimedAs(claims, n) && j < |Refers(k.docs, n)|
    ensures LedTo(k, claims, Refers(k.docs, n)[j])
  {
    LedOn(k, claims, n, Refers(k.docs, n)[j]);
  }

  lemma MixedRefers(up: Node, n: Node)
    requires n in Refers(MIXED, up)
    ensures n.digest in {2, 3, 5} || (n.digest == 7 && up == Node(3, Manifest))
  {
    var i :| 0 <= i < |Refers(MIXED, up)| && Refers(MIXED, up)[i] == n;
  }

  lemma LayerIsComplete(k: Copy)
    requires k.docs == MIXED && k.root == Node(1, Index)
    ensures Complete(k, AS_LAYER)
  {
    LayerIsLed(k);
    forall d, n | d in AS_LAYER && n in Refers(MIXED, Claimed(AS_LAYER, d)) ensures n.digest in AS_LAYER {
      MixedRefers(Claimed(AS_LAYER, d), n);
    }
  }

  lemma LayerIsLed(k: Copy)
    requires k.docs == MIXED && k.root == Node(1, Index)
    ensures forall d | d in AS_LAYER :: LedTo(k, AS_LAYER, Claimed(AS_LAYER, d))
  {
    LedRoot(k, AS_LAYER);
    LedFirst(k, AS_LAYER, Node(1, Index), 0);
    LedFirst(k, AS_LAYER, Node(2, Manifest), 0);
    LedFirst(k, AS_LAYER, Node(2, Manifest), 1);
  }

  lemma ManifestIsComplete(k: Copy)
    requires k.docs == MIXED && k.root == Node(1, Index)
    ensures Complete(k, AS_MANIFEST)
  {
    ManifestIsLed(k);
    forall d, n | d in AS_MANIFEST && n in Refers(MIXED, Claimed(AS_MANIFEST, d)) ensures n.digest in AS_MANIFEST {
      MixedRefers(Claimed(AS_MANIFEST, d), n);
    }
  }

  lemma ManifestIsLed(k: Copy)
    requires k.docs == MIXED && k.root == Node(1, Index)
    ensures forall d | d in AS_MANIFEST :: LedTo(k, AS_MANIFEST, Claimed(AS_MANIFEST, d))
  {
    LedRoot(k, AS_MANIFEST);
    LedFirst(k, AS_MANIFEST, Node(1, Index), 0);
    LedFirst(k, AS_MANIFEST, Node(1, Index), 1);
    LedFirst(k, AS_MANIFEST, Node(3, Manifest), 0);
    LedFirst(k, AS_MANIFEST, Node(3, Manifest), 1);
  }

  lemma MixedEnds(claims: Claims)
    requires Complete(MixedCopy(2), claims)
    ensures CanLeave(MixedCopy(2), {} + claims.Keys)
  {
    var k := MixedCopy(2);
    MixedLoopFree(claims);
    OutcomesAre(k, claims);
    var t :| Copies(k, t) && t.claims == claims;
    SuccessIsComplete(k, t);
  }

  /** With two transfers at a time it depends on which comes first: one successful copy leaves layer 7 out,
      another takes it along. */
  lemma MixedDiffers()
    ensures CanLeave(MixedCopy(2), {1, 2, 3, 5}) && CanLeave(MixedCopy(2), {1, 2, 3, 5, 7})
  {
    LayerIsComplete(MixedCopy(2));
    ManifestIsComplete(MixedCopy(2));
    MixedEnds(AS_LAYER);
    MixedEnds(AS_MANIFEST);
    LayerKeys();
  }
}
