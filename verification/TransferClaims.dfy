/** What a copy can end in where one digest is named as media of different kinds: exactly the complete
    ways of claiming, as soon as two transfers may run at a time. */
module TransferClaims {
  import opened Graph
  import opened Budgets
  import opened Transfer
  import opened TransferInvariant
  import opened TransferProgress
  import opened TransferResults
  import opened TransferCause
  import opened TransferLoops
  import opened TransferRoot
  import opened TransferKinds

  // ---------- when the whole closure is copied ----------

  ghost predicate RefPath(docs: Docs, p: seq<Node>) {
    |p| > 0 && forall i | 0 <= i < |p| - 1 :: p[i + 1] in Refers(docs, p[i])
  }

  /** A descriptor the root leads to. */
  ghost predicate Reached(k: Copy, n: Node) {
    exists p :: RefPath(k.docs, p) && p[0] == k.root && p[|p| - 1] == n
  }

  /** The closure of the root. */
  ghost predicate InClosure(k: Copy, x: Digest) {
    exists n :: Reached(k, n) && n.digest == x
  }

  /** All that the root leads to is claimed. */
  ghost predicate Whole(k: Copy, claims: Claims) {
    forall n | Reached(k, n) :: n.digest in claims
  }

  lemma ReachedOn(k: Copy, n: Node, c: Node)
    requires Reached(k, n) && c in Refers(k.docs, n)
    ensures Reached(k, c)
  {
    var p :| RefPath(k.docs, p) && p[0] == k.root && p[|p| - 1] == n;
    var q := p + [c];
    forall i | 0 <= i < |q| - 1 ensures q[i + 1] in Refers(k.docs, q[i]) {
      assert q[i] == p[i];
      if i < |p| - 1 { assert q[i + 1] == p[i + 1]; }
    }
    assert q[0] == k.root && q[|q| - 1] == c;
  }

  lemma LedIsReached(k: Copy, claims: Claims, n: Node)
    requires LedTo(k, claims, n)
    ensures Reached(k, n)
  {
    var p :| ClaimedPath(k.docs, claims, p) && p[0] == k.root && p[|p| - 1] == n;
    assert RefPath(k.docs, p);
  }

  /** A complete way of claiming takes in all that the root leads to if and only if it takes in what the
      documents refer to that it does not claim as the documents they are. */
  lemma WholeIff(k: Copy, claims: Claims)
    requires Complete(k, claims)
    ensures Whole(k, claims) <==>
      forall n, c | Reached(k, n) && !ClaimedAs(claims, n) && c in Refers(k.docs, n) :: c.digest in claims
  {
    if Whole(k, claims) {
      forall n, c | Reached(k, n) && c in Refers(k.docs, n) ensures c.digest in claims { ReachedOn(k, n, c); }
    }
    if forall n, c | Reached(k, n) && !ClaimedAs(claims, n) && c in Refers(k.docs, n) :: c.digest in claims {
      forall n | Reached(k, n) ensures n.digest in claims {
        var p :| RefPath(k.docs, p) && p[0] == k.root && p[|p| - 1] == n;
        AllClaimed(k, claims, p, 0);
      }
    }
  }

  lemma {:induction false} AllClaimed(k: Copy, claims: Claims, p: seq<Node>, i: nat)
    requires Complete(k, claims) && RefPath(k.docs, p) && i < |p| && Reached(k, p[i]) && p[i].digest in claims
    requires forall n, c | Reached(k, n) && !ClaimedAs(claims, n) && c in Refers(k.docs, n) :: c.digest in claims
    ensures p[|p| - 1].digest in claims
    decreases |p| - i
  {
    if i < |p| - 1 {
      assert p[i + 1] in Refers(k.docs, p[i]);
      if ClaimedAs(claims, p[i]) { assert p[i] == Claimed(claims, p[i].digest); }
      ReachedOn(k, p[i], p[i + 1]);
      AllClaimed(k, claims, p, i + 1);
    }
  }

  /** A successful copy has copied exactly the closure of its root if and only if what it did not copy as
      the document it is refers to nothing beyond what it claimed. */
  lemma SuccessIsClosureIff(k: Copy, t: Kinded)
    requires Copies(k, t)
    ensures (forall x :: x in t.base.log <==> InClosure(k, x)) <==>
      forall n, c | Reached(k, n) && !ClaimedAs(t.claims, n) && c in Refers(k.docs, n) :: c.digest in t.claims
    ensures forall x | x in t.base.log :: InClosure(k, x)
  {
    SuccessIsComplete(k, t);
    AllLanded(k, t);
    WholeIff(k, t.claims);
    forall x | x in t.base.log ensures InClosure(k, x) {
      LedIsReached(k, t.claims, Claimed(t.claims, x));
      assert Claimed(t.claims, x).digest == x;
    }
  }

  // ---------- one kind for each digest ----------

  /** No digest is named as media of two kinds below the root. */
  ghost predicate OneKind(k: Copy) {
    forall a, b | Reached(k, a) && Reached(k, b) && a.digest == b.digest :: a.kind == b.kind
  }

  lemma OneKindIsWhole(k: Copy, claims: Claims)
    requires OneKind(k) && Complete(k, claims)
    ensures Whole(k, claims)
  {
    forall n | Reached(k, n) ensures n.digest in claims {
      var p :| RefPath(k.docs, p) && p[0] == k.root && p[|p| - 1] == n;
      OneKindClaimed(k, claims, p, 0);
    }
  }

  lemma {:induction false} OneKindClaimed(k: Copy, claims: Claims, p: seq<Node>, i: nat)
    requires OneKind(k) && Complete(k, claims)
    requires RefPath(k.docs, p) && i < |p| && Reached(k, p[i]) && p[i].digest in claims
    ensures p[|p| - 1].digest in claims
    decreases |p| - i
  {
    if i < |p| - 1 {
      assert p[i + 1] in Refers(k.docs, p[i]);
      LedIsReached(k, claims, Claimed(claims, p[i].digest));
      assert p[i] == Claimed(claims, p[i].digest);
      ReachedOn(k, p[i], p[i + 1]);
      OneKindClaimed(k, claims, p, i + 1);
    }
  }

  lemma OneKindKeys(k: Copy, claims: Claims)
    requires OneKind(k) && Complete(k, claims)
    ensures forall x :: x in claims <==> InClosure(k, x)
  {
    OneKindIsWhole(k, claims);
    forall x | x in claims ensures InClosure(k, x) {
      LedIsReached(k, claims, Claimed(claims, x));
      assert Claimed(claims, x).digest == x;
    }
  }

  /** There a successful copy, at any limit and under any interleaving, copies exactly the closure. */
  lemma OneKindIsClosure(k: Copy, t: Kinded)
    requires OneKind(k) && Copies(k, t)
    ensures forall x :: x in t.base.log <==> InClosure(k, x)
    ensures forall x :: x in t.base.dst <==> x in k.before || InClosure(k, x)
  {
    SuccessIsComplete(k, t);
    AllLanded(k, t);
    OneKindKeys(k, t.claims);
  }

  lemma SameClosure(k: Copy, other: Copy, n: Node)
    requires other == k.(limit := other.limit) && Reached(k, n)
    ensures Reached(other, n)
  {
    var p :| RefPath(k.docs, p) && p[0] == k.root && p[|p| - 1] == n;
    assert RefPath(other.docs, p);
  }

  /** So any two of them end in the same destination. */
  lemma OneKindAgrees(k: Copy, t: Kinded, other: Copy, u: Kinded)
    requires OneKind(k) && other == k.(limit := other.limit) && Copies(k, t) && Copies(other, u)
    ensures t.base.dst == u.base.dst
  {
    assert k == other.(limit := k.limit);
    forall n ensures Reached(k, n) <==> Reached(other, n) {
      if Reached(k, n) { SameClosure(k, other, n); }
      if Reached(other, n) { SameClosure(other, k, n); }
    }
    OneKindIsClosure(k, t);
    OneKindIsClosure(other, u);
    forall x ensures InClosure(k, x) <==> InClosure(other, x) {}
  }

  // ---------- one more claim ----------

  lemma {:induction false} KindedAppend(k: Copy, m: Kinded, run: seq<Action>, t: Kinded, a: Action)
    requires IsKindedRun(k, m, run, t) && Enabled(k, t, a)
    ensures IsKindedRun(k, m, run + [a], Step(k, t, a))
    decreases |run|
  {
    if run == [] {
      assert run + [a] == [a] && [a][1..] == [];
    } else {
      assert (run + [a])[1..] == run[1..] + [a];
      KindedAppend(k, Step(k, m, run[0]), run[1..], t, a);
    }
  }

  lemma ArisesNext(k: Copy, m: Kinded, a: Action)
    requires Arises(k, m) && Enabled(k, m, a)
    ensures Arises(k, Step(k, m, a))
  {
    var run :| IsKindedRun(k, Start(k), run, m);
    KindedAppend(k, Start(k), run, m, a);
    RunArises(k, run + [a], Step(k, m, a));
  }

  lemma RunArises(k: Copy, run: seq<Action>, t: Kinded)
    requires IsKindedRun(k, Start(k), run, t)
    ensures Arises(k, t)
  {
  }

  predicate Resting(pc: Pc) {
    pc.Entry? || pc.SlotCheck? || pc == Fan(None)
  }

  /** Nothing under way but calls at rest: not looked at yet, claimed and about to go on, or fanned out. */
  ghost predicate AtRest(s: State) {
    && !s.callerGone && s.cancelled == {}
    && (forall f | 0 <= f < |s.frames| :: Resting(s.frames[f].pc))
    && (forall d | d in s.tasks :: s.tasks[d].Open?)
  }

  ghost predicate KidsAre(k: Copy, m: Kinded, f: nat)
    requires f < |m.base.frames| == |m.kinds|
  {
    var kids, ns := m.base.frames[f].kids, Refers(k.docs, NodeOf(m, f));
    |kids| <= |ns| && forall j | 0 <= j < |kids| :: kids[j] < |m.kinds| && NodeOf(m, kids[j]) == ns[j]
  }

  /** What a call at rest looks like: it has called what its document refers to, and is about to read
      its digest exactly if that is a document. */
  ghost predicate RestsAs(k: Copy, m: Kinded, f: nat)
    requires f < |m.base.frames| == |m.kinds|
  {
    && KidsAre(k, m, f)
    && (m.base.frames[f].pc.SlotCheck? ==> m.base.frames[f].pc.op == if NodeOf(m, f) in k.docs then Fetch else Push)
  }

  ghost predicate Poised(k: Copy, m: Kinded) {
    Arises(k, m) && |m.kinds| == |m.base.frames| && AtRest(m.base) && forall f | 0 <= f < |m.kinds| :: RestsAs(k, m, f)
  }

  lemma RestIsClean(s: State)
    requires AtRest(s)
    ensures Clean(s)
  {
  }

  lemma {:induction false} NoHolders(frames: seq<Frame>)
    requires forall f | 0 <= f < |frames| :: !Holds(KeyThenSlot, frames[f].pc)
    ensures Holders(KeyThenSlot, frames) == 0
    decreases |frames|
  {
    if frames != [] { NoHolders(frames[..|frames| - 1]); }
  }

  /** Only one frame has moved, and nothing has been claimed, closed or cancelled. */
  ghost predicate Shifted(m: Kinded, t: Kinded, f: nat, pc: Pc) {
    && f < |m.base.frames| && t.kinds == m.kinds && t.claims == m.claims
    && t.base.frames == m.base.frames[f := m.base.frames[f].(pc := pc)]
    && t.base.tasks == m.base.tasks && t.base.callerGone == m.base.callerGone && t.base.cancelled == m.base.cancelled
  }

  /** Where a call at rest goes, a step at a time. */
  function Onward(pc: Pc): Pc {
    match pc
    case Entry => Asking
    case SlotCheck(op) => SlotSelect(op)
    case SlotSelect(op) => Running(op)
    case Running(op) => Releasing(op, None)
    case _ => Fan(None)
  }

  /** A step of a call at rest, or on its way from one rest to the next. */
  predicate Goes(limit: int, s: State, a: Action) {
    a != CallerCancels && a.f < |s.frames| && !Cancelled(s, a.f) &&
    var pc := s.frames[a.f].pc;
    match a
    case Enter(_) => pc.Entry?
    case Pass(_) => pc.SlotCheck?
    case Acquire(_) => pc.SlotSelect? && Holders(KeyThenSlot, s.frames) < Clamp(limit)
    case Finish(_, out) => pc == Running(Fetch) && out.None?
    case Release(_) => pc == Releasing(Fetch, None)
    case _ => false
  }

  lemma OnwardStep(c: Config, s: State, a: Action)
    requires c.mode == KeyThenSlot && Goes(c.limit, s, a)
    ensures Guard(c, s, a)
    ensures var t := Next(c, s, a);
      && t.frames == s.frames[a.f := s.frames[a.f].(pc := Onward(s.frames[a.f].pc))]
      && t.tasks == s.tasks && t.callerGone == s.callerGone && t.cancelled == s.cancelled
  {
  }

  lemma Shift(k: Copy, m: Kinded, a: Action) returns (t: Kinded)
    requires Arises(k, m) && |m.kinds| == |m.base.frames| && Goes(k.limit, m.base, a)
    ensures Arises(k, t) && Shifted(m, t, a.f, Onward(m.base.frames[a.f].pc))
  {
    OnwardShift(k, m, a);
    ArisesNext(k, m, a);
    t := Step(k, m, a);
  }

  lemma OnwardShift(k: Copy, m: Kinded, a: Action)
    requires |m.kinds| == |m.base.frames| && Goes(k.limit, m.base, a)
    ensures Enabled(k, m, a) && Shifted(m, Step(k, m, a), a.f, Onward(m.base.frames[a.f].pc))
  {
    OnwardStep(At(k, m.claims), m.base, a);
    PlainStep(k, m, a);
  }

  lemma PlainStep(k: Copy, m: Kinded, a: Action)
    requires Enabled(k, m, a) && !a.Ask? && !a.Spawn?
    ensures Step(k, m, a) == Kinded(Next(At(k, m.claims), m.base, a), m.kinds, m.claims)
  {
  }

  lemma {:induction false} StillNotCancelled(m: Kinded, t: Kinded, f: nat, pc: Pc, g: nat)
    requires Shifted(m, t, f, pc) && g < |m.base.frames| && !Cancelled(m.base, g)
    ensures !Cancelled(t.base, g)
    decreases g
  {
    var p := m.base.frames[g].parent;
    if g > 0 && p < g { StillNotCancelled(m, t, f, pc, p); }
  }

  lemma ShiftTwice(m: Kinded, t: Kinded, u: Kinded, f: nat, pc: Pc, pc': Pc)
    requires Shifted(m, t, f, pc) && Shifted(t, u, f, pc')
    ensures Shifted(m, u, f, pc')
  {
  }

  /** A call that is about to read its document does so, with the slots free. */
  lemma Reads(k: Copy, m: Kinded, f: nat) returns (t: Kinded)
    requires Arises(k, m) && |m.kinds| == |m.base.frames| && f < |m.kinds| && m.base.frames[f].pc == SlotCheck(Fetch)
    requires !Cancelled(m.base, f) && forall g | 0 <= g < |m.base.frames| :: !Holds(KeyThenSlot, m.base.frames[g].pc)
    ensures Arises(k, t) && Shifted(m, t, f, Fan(None))
  {
    var running := Begins(k, m, f);
    StillNotCancelled(m, running, f, Running(Fetch), f);
    t := Ends(k, running, f);
    ShiftTwice(m, running, t, f, Running(Fetch), Fan(None));
  }

  lemma Begins(k: Copy, m: Kinded, f: nat) returns (t: Kinded)
    requires Arises(k, m) && |m.kinds| == |m.base.frames| && f < |m.kinds| && m.base.frames[f].pc == SlotCheck(Fetch)
    requires !Cancelled(m.base, f) && forall g | 0 <= g < |m.base.frames| :: !Holds(KeyThenSlot, m.base.frames[g].pc)
    ensures Arises(k, t) && Shifted(m, t, f, Running(Fetch))
  {
    var passed := Shift(k, m, Pass(f));
    NoHolders(passed.base.frames);
    StillNotCancelled(m, passed, f, SlotSelect(Fetch), f);
    t := Shift(k, passed, Acquire(f));
    ShiftTwice(m, passed, t, f, SlotSelect(Fetch), Running(Fetch));
  }

  lemma Ends(k: Copy, m: Kinded, f: nat) returns (t: Kinded)
    requires Arises(k, m) && |m.kinds| == |m.base.frames| && f < |m.kinds| && m.base.frames[f].pc == Running(Fetch)
    requires !Cancelled(m.base, f)
    ensures Arises(k, t) && Shifted(m, t, f, Fan(None))
  {
    var finished := Shift(k, m, Finish(f, None));
    StillNotCancelled(m, finished, f, Releasing(Fetch, None), f);
    t := Shift(k, finished, Release(f));
    ShiftTwice(m, finished, t, f, Releasing(Fetch, None), Fan(None));
  }

  /** A call at rest that owns the document n is fanned out. */
  lemma FanOut(k: Copy, m: Kinded, o: nat) returns (t: Kinded)
    requires Poised(k, m) && o < |m.kinds| && NodeOf(m, o) in k.docs
    requires m.base.frames[o].pc.SlotCheck? || m.base.frames[o].pc.Fan?
    ensures Poised(k, t) && t.claims == m.claims && t.kinds == m.kinds && |t.base.frames| == |m.base.frames|
    ensures t.base.frames[o].pc == Fan(None) && NodeOf(t, o) == NodeOf(m, o)
  {
    if m.base.frames[o].pc.Fan? {
      t := m;
    } else {
      RestIsClean(m.base);
      NothingCancelled(m.base, o);
      assert RestsAs(k, m, o);
      t := Reads(k, m, o);
      ShiftRests(k, m, t, o, Fan(None));
    }
  }

  lemma ShiftRests(k: Copy, m: Kinded, t: Kinded, f: nat, pc: Pc)
    requires Poised(k, m) && Arises(k, t) && Shifted(m, t, f, pc) && Resting(pc)
    requires pc.SlotCheck? ==> pc.op == if NodeOf(m, f) in k.docs then Fetch else Push
    ensures Poised(k, t)
  {
    forall g | 0 <= g < |t.kinds| ensures RestsAs(k, t, g) {
      assert RestsAs(k, m, g);
      assert NodeOf(t, g) == NodeOf(m, g);
    }
  }

  /** The calls of a document are made up to its j-th reference. */
  lemma {:induction false} CallUpTo(k: Copy, m: Kinded, o: nat, j: nat) returns (t: Kinded)
    requires Poised(k, m) && k.limit >= 2 && o < |m.kinds| && m.base.frames[o].pc == Fan(None)
    requires j < |Refers(k.docs, NodeOf(m, o))|
    ensures Poised(k, t) && t.claims == m.claims && |m.kinds| <= |t.kinds|
    ensures NodeOf(t, o) == NodeOf(m, o) && j < |t.base.frames[o].kids|
    decreases |Refers(k.docs, NodeOf(m, o))| - |m.base.frames[o].kids|
  {
    if j < |m.base.frames[o].kids| {
      t := m;
    } else {
      var next := CallOne(k, m, o);
      t := CallUpTo(k, next, o, j);
    }
  }

  lemma CallOne(k: Copy, m: Kinded, o: nat) returns (t: Kinded)
    requires Poised(k, m) && k.limit >= 2 && o < |m.kinds| && m.base.frames[o].pc == Fan(None)
    requires |m.base.frames[o].kids| < |Refers(k.docs, NodeOf(m, o))|
    ensures Poised(k, t) && t.claims == m.claims && |t.kinds| == |m.kinds| + 1
    ensures t.base.frames[o].pc == Fan(None) && NodeOf(t, o) == NodeOf(m, o)
    ensures |t.base.frames[o].kids| == |m.base.frames[o].kids| + 1
  {
    ArisesAsClaimed(k, m);
    FanRefers(k, m, o);
    assert Enabled(k, m, Spawn(o)) by { AnyTime(At(k, m.claims), m.base, o); }
    t := Step(k, m, Spawn(o));
    ArisesNext(k, m, Spawn(o));
    SpawnMoves(At(k, m.claims), m.base, o);
    SpawnRests(k, m, t, o);
  }

  /** With two transfers at a time the calls of a document are made at any time. */
  lemma AnyTime(c: Config, s: State, f: nat)
    requires c.limit >= 2 && f < |s.frames| && s.frames[f].pc == Fan(None)
    requires |s.frames[f].kids| < |Transfer.Kids(c, s, f)|
    ensures Guard(c, s, Spawn(f))
  {
    if |Transfer.Kids(c, s, f)| < 2 { assert s.frames[f].kids == []; }
  }

  lemma SpawnRests(k: Copy, m: Kinded, t: Kinded, o: nat)
    requires Poised(k, m) && Arises(k, t) && o < |m.kinds| && m.base.frames[o].pc == Fan(None)
    requires |m.base.frames[o].kids| < |Refers(k.docs, NodeOf(m, o))|
    requires var j, n := |m.base.frames[o].kids|, Refers(k.docs, NodeOf(m, o))[|m.base.frames[o].kids|];
      t.base.frames == m.base.frames[o := m.base.frames[o].(kids := m.base.frames[o].kids + [|m.base.frames|])]
        + [Frame(n.digest, o, j, [], Entry)] && t.kinds == m.kinds + [n.kind]
    requires t.claims == m.claims && t.base.tasks == m.base.tasks
    requires t.base.callerGone == m.base.callerGone && t.base.cancelled == m.base.cancelled
    ensures Poised(k, t)
  {
    forall g | 0 <= g < |m.kinds| ensures NodeOf(t, g) == NodeOf(m, g) {}
    forall g | 0 <= g < |t.kinds| ensures RestsAs(k, t, g) {
      if g < |m.kinds| {
        assert RestsAs(k, m, g);
        KidsGrow(k, m, t, o, g);
      }
    }
  }

  lemma KidsGrow(k: Copy, m: Kinded, t: Kinded, o: nat, g: nat)
    requires o < |m.kinds| && g < |m.kinds| == |m.base.frames| && |t.kinds| == |t.base.frames| == |m.kinds| + 1
    requires (forall h | 0 <= h < |m.kinds| :: NodeOf(t, h) == NodeOf(m, h)) && KidsAre(k, m, g)
    requires var j := |m.base.frames[o].kids|;
      j < |Refers(k.docs, NodeOf(m, o))| && NodeOf(t, |m.kinds|) == Refers(k.docs, NodeOf(m, o))[j]
    requires t.base.frames[g].kids == if g == o then m.base.frames[g].kids + [|m.kinds|] else m.base.frames[g].kids
    ensures KidsAre(k, t, g)
  {
    var before, after, ns := m.base.frames[g].kids, t.base.frames[g].kids, Refers(k.docs, NodeOf(m, g));
    assert NodeOf(t, g) == NodeOf(m, g);
    forall j | 0 <= j < |after| ensures after[j] < |t.kinds| && NodeOf(t, after[j]) == ns[j] {
      if j < |before| { assert after[j] == before[j] && NodeOf(m, before[j]) == ns[j]; }
    }
  }

  /** A call not looked at yet, for a digest nobody has claimed, claims it. */
  lemma ClaimKid(k: Copy, m: Kinded, g: nat) returns (t: Kinded)
    requires Poised(k, m) && g < |m.kinds| && m.base.frames[g].pc == Entry && NodeOf(m, g).digest !in m.claims
    ensures Poised(k, t) && t.claims == m.claims[NodeOf(m, g).digest := m.kinds[g]]
  {
    RestIsClean(m.base);
    NothingCancelled(m.base, g);
    var asking := Shift(k, m, Enter(g));
    t := AskKid(k, asking, g);
    ClaimedFrom(k, m, asking, t, g);
    ClaimRests(k, m, t, g);
  }

  lemma ClaimedFrom(k: Copy, m: Kinded, asking: Kinded, t: Kinded, g: nat)
    requires |m.kinds| == |m.base.frames| && Shifted(m, asking, g, Asking) && HasClaimed(k, asking, t, g)
    ensures HasClaimed(k, m, t, g)
  {
  }

  lemma AskKid(k: Copy, m: Kinded, g: nat) returns (t: Kinded)
    requires Arises(k, m) && |m.kinds| == |m.base.frames| && g < |m.kinds| && m.base.frames[g].pc == Asking
    requires NodeOf(m, g).digest !in m.claims
    ensures Arises(k, t) && HasClaimed(k, m, t, g)
  {
    ArisesAsClaimed(k, m);
    NotOnPath(At(k, m.claims), m.base, g);
    t := Step(k, m, Ask(g));
    ArisesNext(k, m, Ask(g));
    AskClaims(At(k, t.claims), m.base, g);
    FollowedIf(k, t.claims, NodeOf(m, g));
  }

  /** A digest nobody has claimed is not being walked above. */
  lemma NotOnPath(c: Config, s: State, f: nat)
    requires c.mode == KeyThenSlot && Reachable(c, s) && Guard(c, s, Ask(f)) && s.frames[f].digest !in s.tasks
    ensures !OnPath(s, f, s.frames[f].digest)
  {
    ReachableInv(c, s);
    if OnPath(s, f, s.frames[f].digest) { PathIsClaimed(c, s, f, s.frames[f].digest); }
  }

  lemma FollowedIf(k: Copy, claims: Claims, n: Node)
    requires ClaimedAs(claims, n)
    ensures n.digest in Followed(k.docs, claims) <==> n in k.docs
  {
    assert Claimed(claims, n.digest) == n;
  }

  lemma AskClaims(c: Config, s: State, f: nat)
    requires c.mode == KeyThenSlot && Guard(c, s, Ask(f)) && s.frames[f].digest !in s.tasks && !OnPath(s, f, s.frames[f].digest)
    ensures var t := Next(c, s, Ask(f));
      && t.frames == s.frames[f := s.frames[f].(pc := SlotCheck(if s.frames[f].digest in c.refs then Fetch else Push))]
      && t.tasks == s.tasks[s.frames[f].digest := Open(f)]
      && t.callerGone == s.callerGone && t.cancelled == s.cancelled
  {
  }

  /** One call has claimed its digest and is about to go on. */
  ghost predicate HasClaimed(k: Copy, m: Kinded, t: Kinded, g: nat)
    requires g < |m.base.frames| == |m.kinds|
  {
    var n := NodeOf(m, g);
    && t.kinds == m.kinds && t.claims == m.claims[n.digest := n.kind] && t.base.tasks == m.base.tasks[n.digest := Open(g)]
    && t.base.frames == m.base.frames[g := m.base.frames[g].(pc := SlotCheck(if n in k.docs then Fetch else Push))]
    && t.base.callerGone == m.base.callerGone && t.base.cancelled == m.base.cancelled
  }

  lemma ClaimRests(k: Copy, m: Kinded, t: Kinded, g: nat)
    requires Poised(k, m) && g < |m.kinds| && Arises(k, t) && HasClaimed(k, m, t, g)
    ensures Poised(k, t)
  {
    forall h | 0 <= h < |t.kinds| ensures RestsAs(k, t, h) { ClaimedRestsAs(k, m, t, g, h); }
  }

  lemma ClaimedRestsAs(k: Copy, m: Kinded, t: Kinded, g: nat, h: nat)
    requires Poised(k, m) && g < |m.kinds| && Arises(k, t) && HasClaimed(k, m, t, g) && h < |t.kinds|
    ensures RestsAs(k, t, h)
  {
    assert NodeOf(t, h) == NodeOf(m, h);
    assert RestsAs(k, m, h);
    KidsStay(k, m, t, h);
  }

  lemma KidsStay(k: Copy, m: Kinded, t: Kinded, h: nat)
    requires |t.base.frames| == |m.base.frames| == |m.kinds| && t.kinds == m.kinds && h < |m.kinds| && KidsAre(k, m, h)
    requires forall g | 0 <= g < |m.kinds| ::
      t.base.frames[g].digest == m.base.frames[g].digest && t.base.frames[g].kids == m.base.frames[g].kids
    ensures KidsAre(k, t, h)
  {
    var kids := t.base.frames[h].kids;
    forall j | 0 <= j < |kids| ensures NodeOf(t, kids[j]) == NodeOf(m, kids[j]) {}
  }

  /** The call that owns a claimed document. */
  lemma OwnerOf(k: Copy, m: Kinded, u: Node) returns (o: nat)
    requires Poised(k, m) && ClaimedAs(m.claims, u)
    ensures o < |m.kinds| && NodeOf(m, o) == u && (m.base.frames[o].pc.SlotCheck? || m.base.frames[o].pc.Fan?)
  {
    ArisesAsClaimed(k, m);
    o := m.base.tasks[u.digest].owner;
    OpenIsOwned(At(k, m.claims), m.base, u.digest);
    assert Resting(m.base.frames[o].pc);
    assert ClaimedAs(m.claims, NodeOf(m, o));
  }

  lemma OpenIsOwned(c: Config, s: State, d: Digest)
    requires Reachable(c, s) && d in s.tasks && s.tasks[d].Open?
    ensures var o := s.tasks[d].owner; o < |s.frames| && s.frames[o].digest == d && Owns(c.mode, s.frames[o].pc)
  {
    ReachableInv(c, s);
    assert TaskData(c, s, d);
  }

  lemma CallIsReached(c: Config, s: State, f: nat)
    requires Reachable(c, s) && f < |s.frames|
    ensures Reaches(c.refs, c.root, s.frames[f].digest)
  {
    ReachableInv(c, s);
  }

  /** Whatever a claimed document refers to can be claimed next, as what it is referred to as. */
  lemma ClaimNext(k: Copy, m: Kinded, u: Node, v: Node) returns (t: Kinded)
    requires Poised(k, m) && k.limit >= 2 && ClaimedAs(m.claims, u) && v in Refers(k.docs, u) && v.digest !in m.claims
    ensures Poised(k, t) && t.claims == m.claims[v.digest := v.kind]
  {
    var o := OwnerOf(k, m, u);
    var j :| 0 <= j < |Refers(k.docs, u)| && Refers(k.docs, u)[j] == v;
    var fanned := FanOut(k, m, o);
    var called := CallUpTo(k, fanned, o, j);
    assert RestsAs(k, called, o);
    var g := called.base.frames[o].kids[j];
    assert NodeOf(called, g) == v;
    NotOwned(k, called, g);
    t := ClaimKid(k, called, g);
  }

  lemma NotOwned(k: Copy, m: Kinded, g: nat)
    requires Poised(k, m) && g < |m.kinds| && NodeOf(m, g).digest !in m.claims
    ensures m.base.frames[g].pc == Entry
  {
    ArisesAsClaimed(k, m);
    assert Resting(m.base.frames[g].pc);
  }

  // ---------- every way of claiming comes about ----------

  lemma FirstClaim(k: Copy) returns (m: Kinded)
    ensures Poised(k, m) && m.claims == map[k.root.digest := k.root.kind]
  {
    var s := Start(k);
    assert IsKindedRun(k, s, [], s) && Arises(k, s);
    assert s.base.frames[..0] == [];
    m := ClaimKid(k, s, 0);
  }

  /** All of a path is claimed, as what the goal claims it as. */
  lemma {:induction false} ClaimPath(k: Copy, m: Kinded, goal: Claims, p: seq<Node>, i: nat) returns (t: Kinded)
    requires Poised(k, m) && k.limit >= 2 && Extends(m.claims, goal)
    requires ClaimedPath(k.docs, goal, p) && i < |p| && ClaimedAs(goal, p[|p| - 1]) && ClaimedAs(m.claims, p[i])
    ensures Poised(k, t) && Extends(m.claims, t.claims) && Extends(t.claims, goal) && p[|p| - 1].digest in t.claims
    decreases |p| - i
  {
    if i == |p| - 1 {
      t := m;
    } else {
      assert p[i + 1] in Refers(k.docs, p[i]);
      assert ClaimedAs(goal, p[i + 1]);
      var next := m;
      if p[i + 1].digest !in m.claims { next := ClaimNext(k, m, p[i], p[i + 1]); }
      t := ClaimPath(k, next, goal, p, i + 1);
    }
  }

  lemma {:induction false} ClaimAll(k: Copy, m: Kinded, goal: Claims) returns (t: Kinded)
    requires Poised(k, m) && k.limit >= 2 && Extends(m.claims, goal) && ClaimedAs(m.claims, k.root)
    requires forall d | d in goal :: LedTo(k, goal, Claimed(goal, d))
    ensures Poised(k, t) && t.claims == goal
    decreases |goal.Keys - m.claims.Keys|
  {
    if d :| d in goal && d !in m.claims {
      var next := ClaimDigest(k, m, goal, d);
      FewerLeft(goal.Keys, m.claims.Keys, next.claims.Keys, d);
      t := ClaimAll(k, next, goal);
    } else {
      t := m;
      assert t.claims.Keys == goal.Keys;
    }
  }

  lemma ClaimDigest(k: Copy, m: Kinded, goal: Claims, d: Digest) returns (t: Kinded)
    requires Poised(k, m) && k.limit >= 2 && Extends(m.claims, goal) && ClaimedAs(m.claims, k.root)
    requires d in goal && LedTo(k, goal, Claimed(goal, d))
    ensures Poised(k, t) && Extends(m.claims, t.claims) && Extends(t.claims, goal) && d in t.claims
  {
    var p :| ClaimedPath(k.docs, goal, p) && p[0] == k.root && p[|p| - 1] == Claimed(goal, d);
    t := ClaimPath(k, m, goal, p, 0);
  }

  lemma FewerLeft(goal: set<Digest>, before: set<Digest>, after: set<Digest>, d: Digest)
    requires before <= after && d in goal && d !in before && d in after
    ensures |goal - after| < |goal - before|
  {
    SmallerSet(goal - after, goal - before);
  }

  /** With two transfers at a time, some copy has claimed just so, with nothing gone wrong. */
  lemma Realized(k: Copy, goal: Claims) returns (run: seq<Action>, m: Kinded)
    requires k.limit >= 2 && ClaimedAs(goal, k.root)
    requires forall d | d in goal :: LedTo(k, goal, Claimed(goal, d))
    ensures IsKindedRun(k, Start(k), run, m) && m.claims == goal && Clean(m.base)
  {
    var first := FirstClaim(k);
    m := ClaimAll(k, first, goal);
    run :| IsKindedRun(k, Start(k), run, m);
    RestIsClean(m.base);
  }

  lemma FollowedOn(k: Copy, claims: Claims, d: Digest, x: Digest)
    requires x in Out(Followed(k.docs, claims), d)
    ensures d in claims && exists n :: n in Refers(k.docs, Claimed(claims, d)) && n.digest == x
  {
    var ns := Refers(k.docs, Claimed(claims, d));
    var j :| 0 <= j < |ns| && DigestsOf(ns)[j] == x;
    assert ns[j] in ns;
  }

  /** What is followed from the root is claimed, once claiming is complete. */
  lemma {:induction false} FollowedIsClaimed(k: Copy, claims: Claims, p: seq<Digest>, i: nat)
    requires Complete(k, claims) && IsPath(Followed(k.docs, claims), p) && i < |p| && p[i] in claims
    ensures p[|p| - 1] in claims
    decreases |p| - i
  {
    if i < |p| - 1 {
      FollowedOn(k, claims, p[i], p[i + 1]);
      FollowedIsClaimed(k, claims, p, i + 1);
    }
  }

  /** Once claiming is complete, whatever the transfer does from there the copy does too. */
  lemma {:induction false} Lift(k: Copy, m: Kinded, rest: seq<Action>, s: State) returns (t: Kinded)
    requires Arises(k, m) && Complete(k, m.claims) && IsRun(At(k, m.claims), m.base, rest, s)
    ensures Arises(k, t) && t.base == s && t.claims == m.claims
    decreases |rest|
  {
    if rest == [] {
      t := m;
    } else {
      ArisesAsClaimed(k, m);
      if rest[0].Ask? { AskedIsClaimed(k, m.claims, m.base, rest[0].f); }
      NothingLeftToClaim(m, rest[0]);
      ArisesNext(k, m, rest[0]);
      t := Lift(k, Step(k, m, rest[0]), rest[1..], s);
    }
  }

  lemma NothingLeftToClaim(m: Kinded, a: Action)
    requires Linked(m) && (a.Ask? && a.f < |m.base.frames| ==> m.base.frames[a.f].digest in m.claims)
    ensures ClaimsAfter(m, a) == m.claims
  {
  }

  lemma AskedIsClaimed(k: Copy, claims: Claims, s: State, f: nat)
    requires Complete(k, claims) && Reachable(At(k, claims), s) && f < |s.frames|
    ensures s.frames[f].digest in claims
  {
    CallIsReached(At(k, claims), s, f);
    ReachedIsClaimed(k, claims, s.frames[f].digest);
  }

  lemma ReachedIsClaimed(k: Copy, claims: Claims, x: Digest)
    requires Complete(k, claims) && Reaches(Followed(k.docs, claims), k.root.digest, x)
    ensures x in claims
  {
    var p :| PathFromTo(Followed(k.docs, claims), p, k.root.digest, x);
    FollowedIsClaimed(k, claims, p, 0);
  }

  /** A complete way of claiming comes to an end at which nothing goes wrong and nothing can be done. */
  lemma PlayedOut(k: Copy, goal: Claims) returns (t: Kinded)
    requires k.limit >= 2 && Complete(k, goal)
    ensures Arises(k, t) && t.claims == goal && Clean(t.base)
    ensures forall a | Benign(a) :: !Guard(At(k, goal), t.base, a)
  {
    var run, m := Realized(k, goal);
    RunsAsClaimed(k, run, m);
    var c := At(k, goal);
    InvInit(c);
    InvRun(c, Init(c), run, m.base);
    var rest, s := RunOut(c, run, m.base);
    t := Lift(k, m, rest, s);
  }

  /** What a copy with two transfers at a time or more can succeed in is exactly this: any complete way of
      claiming that follows no loop. */
  lemma OutcomesAre(k: Copy, goal: Claims)
    requires k.limit >= 2
    ensures (exists t :: Copies(k, t) && t.claims == goal) <==>
      Complete(k, goal) && LoopFree(Followed(k.docs, goal), k.root.digest)
  {
    if t :| Copies(k, t) && t.claims == goal {
      SuccessIsComplete(k, t);
      ArisesAsClaimed(k, t);
      SuccessIsLoopFree(At(k, goal), t.base);
    }
    if Complete(k, goal) && LoopFree(Followed(k.docs, goal), k.root.digest) {
      var t := PlayedOut(k, goal);
      CleanSucceeds(k, t);
    }
  }

  lemma CleanSucceeds(k: Copy, t: Kinded)
    requires Arises(k, t) && Clean(t.base) && forall a | Benign(a) :: !Guard(At(k, t.claims), t.base, a)
    requires LoopFree(Followed(k.docs, t.claims), k.root.digest)
    ensures Copies(k, t)
  {
    ArisesAsClaimed(k, t);
    var c := At(k, t.claims);
    if !Done(t.base) {
      CleanEndIsStuck(c, t.base);
      LoopFreeNeverSticks(c, t.base);
    }
    assert ErrOf(t.base.frames[0].pc).None?;
  }

  /** So every successful copy is one of the whole closure if and only if every complete way of claiming
      without a loop is whole. */
  lemma AlwaysClosureIff(k: Copy)
    requires k.limit >= 2
    ensures (forall t, x | Copies(k, t) && InClosure(k, x) :: x in t.base.log) <==>
      forall claims | Complete(k, claims) && LoopFree(Followed(k.docs, claims), k.root.digest) :: Whole(k, claims)
  {
    if forall t, x | Copies(k, t) && InClosure(k, x) :: x in t.base.log {
      forall claims | Complete(k, claims) && LoopFree(Followed(k.docs, claims), k.root.digest) ensures Whole(k, claims) {
        OutcomesAre(k, claims);
        var t :| Copies(k, t) && t.claims == claims;
        AllLanded(k, t);
        forall n | Reached(k, n) ensures n.digest in claims { assert InClosure(k, n.digest); }
      }
    }
    if forall claims | Complete(k, claims) && LoopFree(Followed(k.docs, claims), k.root.digest) :: Whole(k, claims) {
      forall t, x | Copies(k, t) && InClosure(k, x) ensures x in t.base.log {
        OutcomesAre(k, t.claims);
        AllLanded(k, t);
      }
    }
  }

  // ---------- when it can hang ----------

  /** Not finished, and no frame can take a step. */
  ghost predicate Hangs(k: Copy, t: Kinded) {
    Arises(k, t) && Stuck(At(k, t.claims), t.base)
  }

  ghost function AllDigests(docs: Docs): set<Digest> {
    set n, c | n in docs && c in docs[n] :: c.digest
  }

  /** Digests still to be claimed, at most. */
  ghost function Unclaimed(k: Copy, claims: Claims): nat {
    |AllDigests(k.docs) - claims.Keys|
  }

  ghost predicate RootedClaims(k: Copy, claims: Claims) {
    ClaimedAs(claims, k.root) && forall d | d in claims :: LedTo(k, claims, Claimed(claims, d))
  }

  /** A claimed document refers to something nobody has claimed. */
  predicate Missing(k: Copy, claims: Claims, d: Digest, n: Node) {
    d in claims && n in Refers(k.docs, Claimed(claims, d)) && n.digest !in claims
  }

  lemma CompleteUnlessMissing(k: Copy, claims: Claims)
    requires RootedClaims(k, claims) && !exists d, n :: Missing(k, claims, d, n)
    ensures Complete(k, claims)
  {
    forall d, n | d in claims && n in Refers(k.docs, Claimed(claims, d)) ensures n.digest in claims {
      assert !Missing(k, claims, d, n);
    }
  }

  lemma ReferredIsCounted(docs: Docs, n: Node, c: Node)
    requires c in Refers(docs, n)
    ensures c.digest in AllDigests(docs)
  {
  }

  lemma FewerUnclaimed(k: Copy, claims: Claims, d: Digest, n: Node)
    requires Missing(k, claims, d, n)
    ensures Unclaimed(k, claims[n.digest := n.kind]) < Unclaimed(k, claims)
  {
    ReferredIsCounted(k.docs, Claimed(claims, d), n);
    FewerLeft(AllDigests(k.docs), claims.Keys, claims[n.digest := n.kind].Keys, n.digest);
  }

  lemma RootedMore(k: Copy, claims: Claims, d: Digest, n: Node)
    requires RootedClaims(k, claims) && Missing(k, claims, d, n)
    ensures RootedClaims(k, claims[n.digest := n.kind])
  {
    var more := claims[n.digest := n.kind];
    LedOn(k, claims, Claimed(claims, d), n);
    forall e | e in more ensures LedTo(k, more, Claimed(more, e)) {
      LedStays(k, claims, more, if e == n.digest then n else Claimed(claims, e));
    }
  }

  lemma ClaimMore(k: Copy, claims: Claims, d: Digest, n: Node)
    requires RootedClaims(k, claims) && Missing(k, claims, d, n)
    ensures var more := claims[n.digest := n.kind];
      RootedClaims(k, more) && Extends(claims, more) && Unclaimed(k, more) < Unclaimed(k, claims)
  {
    RootedMore(k, claims, d, n);
    FewerUnclaimed(k, claims, d, n);
  }

  /** Claims that came about can be made complete. */
  lemma {:induction false} Completed(k: Copy, claims: Claims) returns (goal: Claims)
    requires RootedClaims(k, claims)
    ensures Complete(k, goal) && Extends(claims, goal)
    decreases Unclaimed(k, claims)
  {
    if d, n :| Missing(k, claims, d, n) {
      ClaimMore(k, claims, d, n);
      goal := Completed(k, claims[n.digest := n.kind]);
    } else {
      goal := claims;
      CompleteUnlessMissing(k, claims);
    }
  }

  lemma LoopStays(k: Copy, claims: Claims, more: Claims)
    requires Extends(claims, more) && LoopFree(Followed(k.docs, more), k.root.digest)
    ensures LoopFree(Followed(k.docs, claims), k.root.digest)
  {
    var g, h := Followed(k.docs, claims), Followed(k.docs, more);
    forall d, x | x in Out(g, d) ensures x in Out(h, d) {
      FollowedOn(k, claims, d, x);
      FollowedSame(k.docs, claims, more, d);
    }
    forall a, b | Reaches(g, a, b) ensures Reaches(h, a, b) {
      var p :| PathFromTo(g, p, a, b);
      assert PathFromTo(h, p, a, b);
    }
  }

  lemma HangFollowsLoop(k: Copy, t: Kinded)
    requires Hangs(k, t)
    ensures exists claims :: Complete(k, claims) && !LoopFree(Followed(k.docs, claims), k.root.digest)
  {
    ArisesAsClaimed(k, t);
    if LoopFree(Followed(k.docs, t.claims), k.root.digest) { LoopFreeNeverSticks(At(k, t.claims), t.base); }
    LoopIsClaimed(k, t);
    var goal := Completed(k, t.claims);
    if LoopFree(Followed(k.docs, goal), k.root.digest) { LoopStays(k, t.claims, goal); }
  }

  lemma LoopComesToHang(k: Copy, claims: Claims)
    requires k.limit >= 2 && Complete(k, claims) && !LoopFree(Followed(k.docs, claims), k.root.digest)
    ensures exists t :: Hangs(k, t)
  {
    var t := PlayedOut(k, claims);
    ArisesAsClaimed(k, t);
    if Done(t.base) {
      assert ErrOf(t.base.frames[0].pc).None?;
      SuccessIsLoopFree(At(k, claims), t.base);
    }
    CleanEndIsStuck(At(k, claims), t.base);
    assert Hangs(k, t);
  }

  /** A copy with two transfers at a time or more can hang if and only if some complete way of claiming
      follows a loop. */
  lemma HangsIff(k: Copy)
    requires k.limit >= 2
    ensures (exists t :: Hangs(k, t)) <==>
      exists claims :: Complete(k, claims) && !LoopFree(Followed(k.docs, claims), k.root.digest)
  {
    if t :| Hangs(k, t) { HangFollowsLoop(k, t); }
    if claims :| Complete(k, claims) && !LoopFree(Followed(k.docs, claims), k.root.digest) { LoopComesToHang(k, claims); }
  }

  lemma PathLeaves(g: Refs, p: seq<Digest>)
    requires IsPath(g, p) && |p| > 1
    ensures Out(g, p[0]) != []
  {
    assert p[1] in Out(g, p[0]);
  }

  /** A loop is followed only from a root that is claimed. */
  lemma LoopIsClaimed(k: Copy, t: Kinded)
    requires AllLed(k, t) && !LoopFree(Followed(k.docs, t.claims), k.root.digest)
    ensures ClaimedAs(t.claims, k.root)
  {
    var g := Followed(k.docs, t.claims);
    if k.root.digest !in t.claims {
      forall d | Reaches(g, k.root.digest, d) ensures d == k.root.digest {
        var p :| PathFromTo(g, p, k.root.digest, d);
        if |p| > 1 { PathLeaves(g, p); }
      }
    } else {
      RootAsItself(k, t);
    }
  }
}
