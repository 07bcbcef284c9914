/** A copy whose descriptors name one digest as media of different kinds. Once goes by the digest,
    walk by the media type: whoever claims a digest first decides what it is copied as
    (pkg/registry/copy.go). */
module TransferKinds {
  import opened Graph
  import opened Budgets
  import opened Transfer
  import opened TransferInvariant
  import opened TransferWork
  import opened TransferResults
  import opened TransferLoops
  import opened TransferRoot

  // ---------- descriptors ----------

  // Index and Manifest stand for the OCI and the Docker media type of each.
  datatype Kind = Index | Manifest | Blob

  datatype Node = Node(digest: Digest, kind: Kind)

  // A document, as the kind of document it is read as, with what it then refers to, in order.
  type Docs = map<Node, seq<Node>>

  // What each digest has been claimed as.
  type Claims = map<Digest, Kind>

  datatype Copy = Copy(docs: Docs, root: Node, limit: int, before: set<Digest>)

  function Refers(docs: Docs, n: Node): seq<Node> {
    if n in docs then docs[n] else []
  }

  function DigestsOf(ns: seq<Node>): seq<Digest> {
    seq(|ns|, i requires 0 <= i < |ns| => ns[i].digest)
  }

  function Claimed(claims: Claims, d: Digest): Node
    requires d in claims
  {
    Node(d, claims[d])
  }

  predicate ClaimedAs(claims: Claims, n: Node) {
    n.digest in claims && claims[n.digest] == n.kind
  }

  /** The references that are followed: those of each digest as what it was claimed as. */
  function Followed(docs: Docs, claims: Claims): Refs {
    map d | d in claims && Claimed(claims, d) in docs :: DigestsOf(docs[Claimed(claims, d)])
  }

  function At(k: Copy, claims: Claims): Config {
    Config(KeyThenSlot, Followed(k.docs, claims), k.root.digest, k.limit, k.before)
  }

  // ---------- the machine ----------

  /** The transfer's state, the kind each call's descriptor names, and the claims so far. */
  datatype Kinded = Kinded(base: State, kinds: seq<Kind>, claims: Claims)

  function Start(k: Copy): Kinded {
    Kinded(Init(At(k, map[])), [k.root.kind], map[])
  }

  function NodeOf(m: Kinded, f: nat): Node
    requires f < |m.base.frames| == |m.kinds|
  {
    Node(m.base.frames[f].digest, m.kinds[f])
  }

  predicate Enabled(k: Copy, m: Kinded, a: Action) {
    |m.kinds| == |m.base.frames| && Guard(At(k, m.claims), m.base, a)
  }

  predicate ClaimsNow(m: Kinded, a: Action) {
    a.Ask? && a.f < |m.base.frames| && m.base.frames[a.f].digest !in m.base.tasks
  }

  /** The first to ask for a digest claims it as what it was called for. */
  function ClaimsAfter(m: Kinded, a: Action): Claims
    requires |m.kinds| == |m.base.frames|
  {
    if ClaimsNow(m, a) then m.claims[m.base.frames[a.f].digest := m.kinds[a.f]] else m.claims
  }

  /** What the next call of f is for: its own document's next reference. */
  function NextKind(k: Copy, m: Kinded, f: nat): Kind
    requires f < |m.base.frames| == |m.kinds|
  {
    var ns, j := Refers(k.docs, NodeOf(m, f)), |m.base.frames[f].kids|;
    if j < |ns| then ns[j].kind else Blob
  }

  function Step(k: Copy, m: Kinded, a: Action): Kinded
    requires Enabled(k, m, a)
  {
    var claims := ClaimsAfter(m, a);
    Kinded(Next(At(k, claims), m.base, a), if a.Spawn? then m.kinds + [NextKind(k, m, a.f)] else m.kinds, claims)
  }

  ghost predicate IsKindedRun(k: Copy, m: Kinded, run: seq<Action>, t: Kinded)
    decreases |run|
  {
    if run == [] then m == t
    else Enabled(k, m, run[0]) && IsKindedRun(k, Step(k, m, run[0]), run[1..], t)
  }

  ghost predicate Arises(k: Copy, t: Kinded) {
    exists run :: IsKindedRun(k, Start(k), run, t)
  }

  ghost predicate Copies(k: Copy, t: Kinded) {
    Arises(k, t) && Done(t.base) && t.base.frames[0].pc == Returned(None)
  }

  // ---------- it is a run over what was claimed ----------

  ghost predicate Extends(claims: Claims, more: Claims) {
    forall d | d in claims :: d in more && more[d] == claims[d]
  }

  lemma FollowedSame(docs: Docs, claims: Claims, more: Claims, d: Digest)
    requires Extends(claims, more) && d in claims
    ensures d in Followed(docs, more) <==> d in Followed(docs, claims)
    ensures Out(Followed(docs, more), d) == Out(Followed(docs, claims), d)
  {
  }

  /** A path along documents that were claimed as what they are referred to as. */
  ghost predicate ClaimedPath(docs: Docs, claims: Claims, p: seq<Node>) {
    |p| > 0 && forall i | 0 <= i < |p| - 1 :: p[i + 1] in Refers(docs, p[i]) && ClaimedAs(claims, p[i])
  }

  ghost predicate LedTo(k: Copy, claims: Claims, n: Node) {
    exists p :: ClaimedPath(k.docs, claims, p) && p[0] == k.root && p[|p| - 1] == n
  }

  /** Kinds go with frames, claims with tasks, and whoever works on a digest claimed it. */
  ghost predicate Linked(m: Kinded) {
    && |m.kinds| == |m.base.frames| && m.claims.Keys == m.base.tasks.Keys
    && (forall f | 0 <= f < |m.kinds| && Owns(KeyThenSlot, m.base.frames[f].pc) :: ClaimedAs(m.claims, NodeOf(m, f)))
  }

  /** Every call came along claimed documents, and so did every claim. */
  ghost predicate AllLed(k: Copy, m: Kinded) {
    && |m.kinds| == |m.base.frames|
    && (forall f | 0 <= f < |m.kinds| :: LedTo(k, m.claims, NodeOf(m, f)))
    && (forall d | d in m.claims :: LedTo(k, m.claims, Claimed(m.claims, d)))
  }

  lemma LedStays(k: Copy, claims: Claims, more: Claims, n: Node)
    requires Extends(claims, more) && LedTo(k, claims, n)
    ensures LedTo(k, more, n)
  {
    var p :| ClaimedPath(k.docs, claims, p) && p[0] == k.root && p[|p| - 1] == n;
    assert ClaimedPath(k.docs, more, p);
  }

  lemma LedRoot(k: Copy, claims: Claims)
    ensures LedTo(k, claims, k.root)
  {
    assert ClaimedPath(k.docs, claims, [k.root]);
  }

  lemma LedOn(k: Copy, claims: Claims, n: Node, c: Node)
    requires LedTo(k, claims, n) && ClaimedAs(claims, n) && c in Refers(k.docs, n)
    ensures LedTo(k, claims, c)
  {
    var p :| ClaimedPath(k.docs, claims, p) && p[0] == k.root && p[|p| - 1] == n;
    var q := p + [c];
    forall i | 0 <= i < |q| - 1 ensures q[i + 1] in Refers(k.docs, q[i]) && ClaimedAs(claims, q[i]) {
      assert q[i] == p[i];
      if i < |p| - 1 { assert q[i + 1] == p[i + 1]; }
    }
    assert q[0] == k.root && q[|q| - 1] == c;
  }

  /** A step follows the same references under any claims that extend those it leaves. */
  lemma ClaimsAlike(k: Copy, m: Kinded, a: Action, claims: Claims, more: Claims)
    requires Linked(m) && Extends(m.claims, claims) && Extends(claims, more)
    requires a.Ask? && a.f < |m.base.frames| ==> m.base.frames[a.f].digest in claims
    ensures Alike(At(k, claims), At(k, more), m.base, a)
  {
    forall f | 0 <= f < |m.base.frames| && m.base.frames[f].pc.Fan?
      ensures Transfer.Kids(At(k, more), m.base, f) == Transfer.Kids(At(k, claims), m.base, f)
    {
      assert ClaimedAs(m.claims, NodeOf(m, f));
      FollowedSame(k.docs, claims, more, m.base.frames[f].digest);
    }
    if a.Ask? && a.f < |m.base.frames| { FollowedSame(k.docs, claims, more, m.base.frames[a.f].digest); }
  }

  lemma StepAlike(k: Copy, m: Kinded, a: Action, more: Claims)
    requires Linked(m) && Enabled(k, m, a) && Extends(ClaimsAfter(m, a), more)
    ensures Guard(At(k, more), m.base, a) && Step(k, m, a).base == Next(At(k, more), m.base, a)
  {
    var claims := ClaimsAfter(m, a);
    ClaimsAlike(k, m, a, claims, more);
    AlikeGuard(At(k, claims), At(k, more), m.base, a);
    AlikeNext(At(k, claims), At(k, more), m.base, a);
  }

  // ---------- every step keeps the links ----------

  lemma StillOwner(c: Config, s: State, a: Action)
    requires c.mode == KeyThenSlot && Guard(c, s, a) && a != CallerCancels && !a.Spawn? && !a.Join?
    requires !(a.Ask? && s.frames[a.f].digest !in s.tasks) && Moves(s, Next(c, s, a), a.f)
    ensures Owns(KeyThenSlot, Next(c, s, a).frames[a.f].pc) ==> Owns(KeyThenSlot, s.frames[a.f].pc)
  {
  }

  lemma LinkedStart(k: Copy)
    ensures Linked(Start(k))
  {
  }

  lemma LinkedClaim(c: Config, m: Kinded, t: Kinded, f: nat)
    requires Linked(m) && Guard(c, m.base, Ask(f)) && m.base.frames[f].digest !in m.base.tasks
    requires t.base == Next(c, m.base, Ask(f)) && t.kinds == m.kinds && t.claims == ClaimsAfter(m, Ask(f))
    ensures Linked(t)
  {
    OneFrameMoves(c, m.base, Ask(f));
    ClaimKeys(c, m.base, f);
    LinkedClaimed(m, t, f);
  }

  lemma LinkedClaimed(m: Kinded, t: Kinded, f: nat)
    requires Linked(m) && Moves(m.base, t.base, f) && t.kinds == m.kinds && NodeOf(m, f).digest !in m.claims
    requires t.claims == m.claims[NodeOf(m, f).digest := m.kinds[f]] && t.base.tasks.Keys == t.claims.Keys
    ensures Linked(t)
  {
    forall g | 0 <= g < |t.kinds| && Owns(KeyThenSlot, t.base.frames[g].pc) ensures ClaimedAs(t.claims, NodeOf(t, g)) {
      if g != f { assert ClaimedAs(m.claims, NodeOf(m, g)); }
    }
  }

  lemma ClaimKeys(c: Config, s: State, f: nat)
    requires Guard(c, s, Ask(f)) && s.frames[f].digest !in s.tasks
    ensures Next(c, s, Ask(f)).tasks.Keys == s.tasks.Keys + {s.frames[f].digest}
  {
  }

  /** A call that fans out follows its own document. */
  lemma FanRefers(k: Copy, m: Kinded, f: nat)
    requires Linked(m) && f < |m.kinds| && m.base.frames[f].pc.Fan?
    ensures ClaimedAs(m.claims, NodeOf(m, f))
    ensures Transfer.Kids(At(k, m.claims), m.base, f) == DigestsOf(Refers(k.docs, NodeOf(m, f)))
  {
    assert ClaimedAs(m.claims, NodeOf(m, f));
  }

  lemma LinkedAdded(m: Kinded, t: Kinded, kind: Kind)
    requires Linked(m) && t.kinds == m.kinds + [kind] && t.claims == m.claims && t.base.tasks == m.base.tasks
    requires |t.base.frames| == |m.base.frames| + 1 && t.base.frames[|m.base.frames|].pc == Entry
    requires forall g | 0 <= g < |m.base.frames| ::
      t.base.frames[g].digest == m.base.frames[g].digest && t.base.frames[g].pc == m.base.frames[g].pc
    ensures Linked(t)
  {
    forall g | 0 <= g < |t.kinds| && Owns(KeyThenSlot, t.base.frames[g].pc) ensures ClaimedAs(t.claims, NodeOf(t, g)) {
      assert ClaimedAs(m.claims, NodeOf(m, g));
    }
  }

  lemma LinkedSpawn(k: Copy, m: Kinded, f: nat)
    requires Linked(m) && Enabled(k, m, Spawn(f))
    ensures Linked(Step(k, m, Spawn(f)))
  {
    SpawnMoves(At(k, m.claims), m.base, f);
    LinkedAdded(m, Step(k, m, Spawn(f)), NextKind(k, m, f));
  }

  /** Calls that move on with what they own. */
  lemma LinkedMoved(m: Kinded, t: Kinded)
    requires Linked(m) && t.kinds == m.kinds && t.claims == m.claims && t.base.tasks.Keys == m.base.tasks.Keys
    requires |t.base.frames| == |m.base.frames|
    requires forall g | 0 <= g < |m.base.frames| :: t.base.frames[g].digest == m.base.frames[g].digest
    requires forall g | 0 <= g < |m.base.frames| ::
      Owns(KeyThenSlot, t.base.frames[g].pc) ==> Owns(KeyThenSlot, m.base.frames[g].pc)
    ensures Linked(t)
  {
    forall g | 0 <= g < |t.kinds| && Owns(KeyThenSlot, t.base.frames[g].pc) ensures ClaimedAs(t.claims, NodeOf(t, g)) {
      assert ClaimedAs(m.claims, NodeOf(m, g));
    }
  }

  lemma LinkedJoin(c: Config, m: Kinded, t: Kinded, f: nat)
    requires Linked(m) && Guard(c, m.base, Join(f))
    requires t.base == Next(c, m.base, Join(f)) && t.kinds == m.kinds && t.claims == m.claims
    ensures Linked(t)
  {
    JoinMoves(c, m.base, f);
    LinkedMoved(m, t);
  }

  lemma LinkedQuiet(c: Config, m: Kinded, t: Kinded, a: Action)
    requires Linked(m) && c.mode == KeyThenSlot && Guard(c, m.base, a) && Data(c, m.base)
    requires !ClaimsNow(m, a) && a != CallerCancels && !a.Spawn? && !a.Join?
    requires t.base == Next(c, m.base, a) && t.kinds == m.kinds && t.claims == m.claims
    ensures Linked(t)
  {
    OneFrameMoves(c, m.base, a);
    StillOwner(c, m.base, a);
    QuietTasks(c, m.base, a);
    LinkedMoved(m, t);
  }

  lemma LinkedOther(c: Config, m: Kinded, t: Kinded, a: Action)
    requires Linked(m) && c.mode == KeyThenSlot && Guard(c, m.base, a) && Data(c, m.base)
    requires !ClaimsNow(m, a) && !a.Spawn?
    requires t.base == Next(c, m.base, a) && t.kinds == m.kinds && t.claims == m.claims
    ensures Linked(t)
  {
    if a == CallerCancels {
      LinkedMoved(m, t);
    } else if a.Join? {
      LinkedJoin(c, m, t, a.f);
    } else {
      LinkedQuiet(c, m, t, a);
    }
  }

  lemma LinkedStep(k: Copy, m: Kinded, a: Action)
    requires Linked(m) && Enabled(k, m, a) && Data(At(k, m.claims), m.base)
    ensures Linked(Step(k, m, a))
  {
    var t := Step(k, m, a);
    if ClaimsNow(m, a) {
      LinkedClaim(At(k, t.claims), m, t, a.f);
    } else if a.Spawn? {
      LinkedSpawn(k, m, a.f);
    } else {
      LinkedOther(At(k, m.claims), m, t, a);
    }
  }

  lemma ClaimsGrow(m: Kinded, a: Action)
    requires Linked(m)
    ensures Extends(m.claims, ClaimsAfter(m, a))
  {
  }

  /** The actions lead to s over whatever claims extend these. */
  ghost predicate RunsUnder(k: Copy, claims: Claims, run: seq<Action>, s: State) {
    forall more | Extends(claims, more) :: IsRun(At(k, more), Init(At(k, more)), run, s)
  }

  lemma {:induction false} KindedRunIsRun(k: Copy, pre: seq<Action>, m: Kinded, run: seq<Action>, t: Kinded)
    requires Linked(m) && IsKindedRun(k, m, run, t) && RunsUnder(k, m.claims, pre, m.base)
    ensures Linked(t) && Extends(m.claims, t.claims) && RunsUnder(k, t.claims, pre + run, t.base)
    decreases |run|
  {
    if run == [] {
      assert pre + run == pre;
    } else {
      OneStep(k, pre, m, run[0]);
      KindedRunIsRun(k, pre + [run[0]], Step(k, m, run[0]), run[1..], t);
      FirstMoved(pre, run);
    }
  }

  lemma FirstMoved(pre: seq<Action>, run: seq<Action>)
    requires run != []
    ensures pre + [run[0]] + run[1..] == pre + run
  {
  }

  /** Every step is one over any claims that extend those it leaves. */
  lemma OneStep(k: Copy, pre: seq<Action>, m: Kinded, a: Action)
    requires Linked(m) && Enabled(k, m, a) && RunsUnder(k, m.claims, pre, m.base)
    ensures var next := Step(k, m, a);
      Linked(next) && Extends(m.claims, next.claims) && RunsUnder(k, next.claims, pre + [a], next.base)
  {
    var c := At(k, m.claims);
    assert IsRun(c, Init(c), pre, m.base);
    ReachableInv(c, m.base);
    LinkedStep(k, m, a);
    ClaimsGrow(m, a);
    var next := Step(k, m, a);
    forall more | Extends(next.claims, more) ensures IsRun(At(k, more), Init(At(k, more)), pre + [a], next.base) {
      StepAlike(k, m, a, more);
      RunAppend(At(k, more), Init(At(k, more)), pre, m.base, a);
    }
  }

  // ---------- every call came along claimed documents ----------

  lemma LedStep(k: Copy, m: Kinded, a: Action)
    requires Linked(m) && AllLed(k, m) && Enabled(k, m, a)
    requires Extends(m.claims, Step(k, m, a).claims)
    ensures AllLed(k, Step(k, m, a))
  {
    var t := Step(k, m, a);
    StepNodes(k, m, a);
    if a.Spawn? { NewIsLed(k, m, a.f); }
    forall f | 0 <= f < |t.kinds| ensures LedTo(k, t.claims, NodeOf(t, f)) {
      if f < |m.kinds| { LedStays(k, m.claims, t.claims, NodeOf(m, f)); }
    }
    forall d | d in t.claims ensures LedTo(k, t.claims, Claimed(t.claims, d)) {
      LedStays(k, m.claims, t.claims, if d in m.claims then Claimed(m.claims, d) else NodeOf(m, a.f));
    }
  }

  lemma StepNodes(k: Copy, m: Kinded, a: Action)
    requires Enabled(k, m, a)
    ensures var t := Step(k, m, a);
      |m.kinds| <= |t.kinds| == |t.base.frames| && (!a.Spawn? ==> |t.kinds| == |m.kinds|) &&
      forall f | 0 <= f < |m.kinds| :: NodeOf(t, f) == NodeOf(m, f)
  {
    if a.Spawn? {
      SpawnMoves(At(k, m.claims), m.base, a.f);
    } else if a != CallerCancels {
      StepDigests(At(k, ClaimsAfter(m, a)), m.base, a);
    }
  }

  lemma NewIsLed(k: Copy, m: Kinded, f: nat)
    requires Linked(m) && AllLed(k, m) && Enabled(k, m, Spawn(f))
    ensures var t := Step(k, m, Spawn(f));
      |t.kinds| == |t.base.frames| == |m.kinds| + 1 && LedTo(k, m.claims, NodeOf(t, |m.kinds|))
  {
    var ns, j := Refers(k.docs, NodeOf(m, f)), |m.base.frames[f].kids|;
    SpawnMoves(At(k, m.claims), m.base, f);
    FanRefers(k, m, f);
    LedOn(k, m.claims, NodeOf(m, f), ns[j]);
  }

  lemma {:induction false} LedRun(k: Copy, pre: seq<Action>, m: Kinded, run: seq<Action>, t: Kinded)
    requires Linked(m) && AllLed(k, m) && IsKindedRun(k, m, run, t) && RunsUnder(k, m.claims, pre, m.base)
    ensures AllLed(k, t)
    decreases |run|
  {
    if run != [] {
      OneStep(k, pre, m, run[0]);
      LedStep(k, m, run[0]);
      LedRun(k, pre + [run[0]], Step(k, m, run[0]), run[1..], t);
    }
  }

  // ---------- so it is a run over what it claims ----------

  /** Whatever kinds its descriptors name, a copy is a run of the transfer over the references that are
      followed: those of each digest as what it was claimed as. */
  lemma RunsAsClaimed(k: Copy, run: seq<Action>, t: Kinded)
    requires IsKindedRun(k, Start(k), run, t)
    ensures IsRun(At(k, t.claims), Init(At(k, t.claims)), run, t.base) && Linked(t) && AllLed(k, t)
  {
    LinkedStart(k);
    KindedRunIsRun(k, [], Start(k), run, t);
    assert [] + run == run;
    LedRoot(k, map[]);
    LedRun(k, [], Start(k), run, t);
  }

  lemma ArisesAsClaimed(k: Copy, t: Kinded)
    requires Arises(k, t)
    ensures Reachable(At(k, t.claims), t.base) && Linked(t) && AllLed(k, t)
  {
    var run :| IsKindedRun(k, Start(k), run, t);
    RunsAsClaimed(k, run, t);
  }

  // ---------- what such a copy leaves ----------

  /** A complete way of claiming: the root as itself, everything along claimed documents from there, and
      all that a claimed document refers to. */
  ghost predicate Complete(k: Copy, claims: Claims) {
    && ClaimedAs(claims, k.root)
    && (forall d | d in claims :: LedTo(k, claims, Claimed(claims, d)))
    && (forall d, n | d in claims && n in Refers(k.docs, Claimed(claims, d)) :: n.digest in claims)
  }

  /** In every state of every copy, whatever kinds it comes across, a pushed digest's references, as what
      it was claimed as, were pushed before it. */
  lemma ChildrenFirstAsClaimed(k: Copy, t: Kinded, i: nat)
    requires Arises(k, t) && i < |t.base.log|
    ensures t.base.log[i] in t.claims
    ensures forall n | n in Refers(k.docs, Claimed(t.claims, t.base.log[i])) :: n.digest in t.base.log[..i]
  {
    ArisesAsClaimed(k, t);
    var c := At(k, t.claims);
    ReachableInv(c, t.base);
    assert LogAt(c, t.base, i);
    var ns := Refers(k.docs, Claimed(t.claims, t.base.log[i]));
    forall n | n in ns ensures n.digest in t.base.log[..i] {
      var j :| 0 <= j < |ns| && ns[j] == n;
      assert Out(c.refs, t.base.log[i]) == DigestsOf(ns);
      assert DigestsOf(ns)[j] == n.digest;
    }
  }

  /** A successful copy has claimed in a complete way, and leaves the old content plus exactly what it
      claimed. */
  lemma SuccessIsComplete(k: Copy, t: Kinded)
    requires Copies(k, t)
    ensures Complete(k, t.claims) && t.base.dst == k.before + t.claims.Keys
  {
    ArisesAsClaimed(k, t);
    AllLanded(k, t);
    forall d, n | d in t.claims && n in Refers(k.docs, Claimed(t.claims, d)) ensures n.digest in t.claims {
      var i :| 0 <= i < |t.base.log| && t.base.log[i] == d;
      ChildrenFirstAsClaimed(k, t, i);
      assert n.digest in t.base.log;
    }
    RootAsItself(k, t);
  }

  lemma AllLanded(k: Copy, t: Kinded)
    requires Copies(k, t)
    ensures k.root.digest in t.claims && forall x :: x in t.base.log <==> x in t.claims
    ensures t.base.dst == k.before + t.claims.Keys
  {
    ArisesAsClaimed(k, t);
    SuccessClaims(At(k, t.claims), t.base);
  }

  /** After a success whatever has been claimed has been pushed. */
  lemma SuccessClaims(c: Config, s: State)
    requires Succeeds(c, s)
    ensures c.root in s.tasks && forall x :: x in s.log <==> x in s.tasks
    ensures s.dst == c.before + s.tasks.Keys
  {
    ReachableInv(c, s);
    SuccessIsClosure(c, s);
    ReachesSelf(c.refs, c.root);
    forall x ensures x in s.log <==> x in s.tasks {
      if x in s.log {
        var i :| 0 <= i < |s.log| && s.log[i] == x;
        assert LogAt(c, s, i);
      }
      if x in s.tasks { assert Reaches(c.refs, c.root, x); }
    }
  }

  lemma RootAsItself(k: Copy, t: Kinded)
    requires AllLed(k, t) && k.root.digest in t.claims
    ensures ClaimedAs(t.claims, k.root)
  {
    assert LedTo(k, t.claims, Claimed(t.claims, k.root.digest));
  }
}
