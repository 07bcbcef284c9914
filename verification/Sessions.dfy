/** Several processes copying into and deleting from one layout, any of them able to
    die at any step. The lock is held over a copy's pushes and its tag, and over a
    whole delete (cmd/copy.go, delete.go, lock.go); the operating system drops it when
    its holder dies. A copy into a layout that is not there yet creates it first, and
    does that without the lock (layout.go). */
module Sessions {
  import opened Wrappers
  import opened Graph
  import opened LayoutStore
  import opened LayoutMet
  import opened Layouts

  // The bytes every digest names, what can be asked for, and the kind of media each digest is of.
  datatype Universe = Universe(content: Blobs, roots: set<Descriptor>, kind: Digest -> Media)

  // What a copy takes each digest as: what the reference says it is that comes to it first.
  type Claims = map<Digest, Media>

  datatype Proc =
    | Idle
    | Creating(root: Descriptor, claims: Claims)    // has found no layout
    | Created(root: Descriptor, claims: Claims)     // has written its marker file, not yet its empty index
    | WantsCopy(root: Descriptor, claims: Claims)
    | Copying(root: Descriptor, claims: Claims, landed: set<Digest>)
    | Tagging(root: Descriptor, snapshot: seq<Descriptor>)
    | WantsDelete(tag: string)
    | Deleting(tag: string)
    | Trimming(tag: string, snapshot: seq<Descriptor>, victim: nat, orphans: set<Digest>)
    | Removing(orphans: set<Digest>)

  // made: the layout's marker file is there.
  datatype Sys = Sys(disk: Disk, made: bool, holder: Option<nat>, procs: map<nat, Proc>)

  datatype Act =
    | StartCopy(p: nat, root: Descriptor, claims: Claims)
    | StartDelete(p: nat, tag: string)
    | Mark(p: nat)                    // write the marker file
    | WriteEmpty(p: nat)              // write an empty index
    | Lock(p: nat)
    | Land(p: nat, d: Digest)         // one blob copied, or found there already
    | ReadForTag(p: nat)
    | WriteTag(p: nat)
    | Plan(p: nat)                    // read the index, collect victim and survivors
    | Trim(p: nat)                    // write the index without the victim
    | Remove(p: nat, d: Digest)
    | Finish(p: nat)
    | Die(p: nat)

  function ProcOf(s: Sys, p: nat): Proc {
    if p in s.procs then s.procs[p] else Idle
  }

  /** What copying a descriptor copies first. Unlike delete it follows the subject, and
      takes each config and layer for what its media type says it is. */
  function CopyChildren(u: Universe, b: Descriptor): seq<Descriptor> {
    var doc := ReadDoc(u.content, b.digest);
    if doc.None? then []
    else if b.media.Index? then doc.value.members
    else if b.media.Manifest? then
      [doc.value.config] + doc.value.layers + (if doc.value.subject.Some? then [doc.value.subject.value] else [])
    else []
  }

  function As(m: Media, d: Digest): Descriptor {
    Descriptor(m, d, 0, "")
  }

  /** What a copy of root can take digests as: the root as it is asked for, everything else as something taken
      before refers to it. */
  ghost predicate Claimed(u: Universe, root: Descriptor, claims: Claims) {
    && root.digest in claims && SameKind(claims[root.digest], root.media)
    && forall d | d in claims && d != root.digest :: ClaimedBelow(u, claims, d)
  }

  ghost predicate ClaimedBelow(u: Universe, claims: Claims, d: Digest)
    requires d in claims
  {
    exists up, c ::
      up in claims && c in CopyChildren(u, As(claims[up], up)) && c.digest == d && SameKind(c.media, claims[d])
  }

  predicate InSession(p: Proc) {
    p.Copying? || p.Tagging? || p.Deleting? || p.Trimming? || p.Removing?
  }

  ghost predicate Guard(u: Universe, locking: bool, s: Sys, a: Act) {
    var me := ProcOf(s, a.p);
    match a
    case StartCopy(_, root, claims) => me.Idle? && root in u.roots && Claimed(u, root, claims)
    case StartDelete(_, _) => me.Idle? && s.made
    case Mark(_) => me.Creating?
    case WriteEmpty(_) => me.Created?
    case Lock(_) => (me.WantsCopy? || me.WantsDelete?) && (locking ==> s.holder.None?)
    case Land(_, d) =>
      me.Copying? && d in u.content && d in me.claims && Readable(u.content, As(me.claims[d], d)) &&
      forall c | c in CopyChildren(u, As(me.claims[d], d)) :: c.digest in me.landed
    case ReadForTag(_) => me.Copying? && me.root.digest in me.landed
    case WriteTag(_) => me.Tagging?
    case Plan(_) => me.Deleting?
    case Trim(_) => me.Trimming?
    case Remove(_, d) => me.Removing? && d in me.orphans
    case Finish(_) => InSession(me)
    case Die(_) => !me.Idle?
  }

  function Become(s: Sys, p: nat, me: Proc): Sys {
    s.(procs := s.procs[p := me])
  }

  /** The session of p is over, and with it the lock it held. */
  function Leave(s: Sys, p: nat): Sys {
    Become(s.(holder := if s.holder == Some(p) then None else s.holder), p, Idle)
  }

  ghost function Next(u: Universe, s: Sys, a: Act): Sys
    requires Guard(u, false, s, a)
  {
    var me := ProcOf(s, a.p);
    match a
    case StartCopy(p, root, claims) => Become(s, p, if s.made then WantsCopy(root, claims) else Creating(root, claims))
    case Mark(p) => Become(s.(made := true), p, Created(me.root, me.claims))
    case WriteEmpty(p) => Become(s.(disk := Disk([], s.disk.blobs)), p, WantsCopy(me.root, me.claims))
    case StartDelete(p, tag) => Become(s, p, WantsDelete(tag))
    case Lock(p) =>
      Become(s.(holder := Some(p)), p, if me.WantsCopy? then Copying(me.root, me.claims, {}) else Deleting(me.tag))
    case Land(p, d) =>
      var blobs := if d in s.disk.blobs then s.disk.blobs else s.disk.blobs[d := u.content[d]];
      Become(s.(disk := Disk(s.disk.index, blobs)), p, Copying(me.root, me.claims, me.landed + {d}))
    case ReadForTag(p) => Become(s, p, Tagging(me.root, s.disk.index))
    case WriteTag(p) => Leave(s.(disk := Disk(TagIndex(me.snapshot, me.root), s.disk.blobs)), p)
    case Plan(p) =>
      var i := FindTag(s.disk.index, me.tag);
      if i == |s.disk.index| then Leave(s, p)
      else
        var o := Orphans(s.disk, i);
        if o.None? then Leave(s, p) else Become(s, p, Trimming(me.tag, s.disk.index, i, o.value))
    case Trim(p) =>
      if me.victim < |me.snapshot|
      then Become(s.(disk := Disk(Without(me.snapshot, me.victim), s.disk.blobs)), p, Removing(me.orphans))
      else Leave(s, p)
    case Remove(p, d) =>
      Become(s.(disk := Disk(s.disk.index, s.disk.blobs - {d})), p, Removing(me.orphans - {d}))
    case Finish(p) => Leave(s, p)
    case Die(p) => Leave(s, p)
  }

  ghost predicate IsRun(u: Universe, locking: bool, s: Sys, run: seq<Act>, t: Sys)
    decreases |run|
  {
    if run == [] then s == t
    else Guard(u, locking, s, run[0]) && IsRun(u, locking, Next(u, s, run[0]), run[1..], t)
  }

  // ---------- the invariant ----------

  /** Everything desc leads to is there and readable. */
  ghost predicate Intact(blobs: Blobs, desc: Descriptor) {
    forall b | LeadsTo(blobs, desc, b) :: b.digest in blobs && Readable(blobs, b)
  }

  ghost predicate Unneeded(d: Disk, orphans: set<Digest>) {
    forall e, b | e in d.index && LeadsTo(d.blobs, e, b) :: b.digest !in orphans
  }

  /** What a process inside its session may rely on. */
  ghost predicate Holds(d: Disk, me: Proc) {
    match me
    case Tagging(root, snapshot) => Intact(d.blobs, root) && Complete(Disk(snapshot, d.blobs))
    case Trimming(_, snapshot, i, orphans) =>
      Complete(Disk(snapshot, d.blobs)) && i < |snapshot| && Orphans(Disk(snapshot, d.blobs), i) == Some(orphans) &&
      Spares(Disk(snapshot, d.blobs), i)
    case Removing(orphans) => Unneeded(d, orphans)
    case _ => true
  }

  ghost predicate VictimKnown(me: Proc) {
    me.Trimming? ==> me.victim == FindTag(me.snapshot, me.tag) < |me.snapshot|
  }

  /** Only the holder is inside a session, and a planned delete takes out an entry it has read. */
  ghost predicate Exclusive(s: Sys) {
    && (forall p | p in s.procs && InSession(s.procs[p]) :: s.holder == Some(p))
    && (forall p | p in s.procs :: VictimKnown(s.procs[p]))
  }

  ghost predicate Kept(s: Sys) {
    && Complete(s.disk) && Exclusive(s)
    && (forall p | p in s.procs :: Holds(s.disk, s.procs[p]))
  }

  /** What is about to be tagged is intact, and what a delete is about to take is covered. */
  ghost predicate Careful(s: Sys, a: Act) {
    var me, d := ProcOf(s, a.p), s.disk;
    && (a.ReadForTag? && me.Copying? ==> Intact(d.blobs, me.root))
    && (a.Plan? && me.Deleting? && FindTag(d.index, me.tag) < |d.index| && Orphans(d, FindTag(d.index, me.tag)).Some? ==>
        Covered(d, FindTag(d.index, me.tag)))
  }

  /** The disk changes under the one process that holds the lock. */
  lemma OthersUnaffected(s: Sys, s': Sys, p: nat, me: Proc)
    requires Kept(s) && s.holder == Some(p)
    requires s'.procs == s.procs[p := me] && (s'.holder == Some(p) || (s'.holder.None? && !InSession(me)))
    requires Complete(s'.disk) && Holds(s'.disk, me) && VictimKnown(me)
    ensures Kept(s')
  {
    forall q | q in s'.procs ensures Holds(s'.disk, s'.procs[q]) {
      if q != p { assert Holds(s.disk, s.procs[q]); }
    }
  }

  lemma {:induction false} AddedPath(before: Blobs, after: Blobs, e: Descriptor, p: seq<Descriptor>)
    requires Intact(before, e) && IsDescPath(after, p) && p[0] == e
    requires forall x | x in before :: x in after && after[x] == before[x]
    ensures IsDescPath(before, p)
    decreases |p|
  {
    if |p| > 1 {
      var q := p[..|p| - 1];
      PathSplits(after, p);
      AddedPath(before, after, e, q);
      var last := q[|q| - 1];
      assert LeadsTo(before, e, last) by { assert DescPath(before, q, e, last); }
      assert ReadDoc(after, last.digest) == ReadDoc(before, last.digest);
      PathExtends(before, q, p[|p| - 1]);
    }
  }

  /** New blobs do not disturb what is complete. */
  lemma AddingKeepsIntact(before: Blobs, after: Blobs, e: Descriptor)
    requires Intact(before, e)
    requires forall x | x in before :: x in after && after[x] == before[x]
    ensures Intact(after, e)
  {
    forall b | LeadsTo(after, e, b) ensures b.digest in after && Readable(after, b) {
      var p :| DescPath(after, p, e, b);
      AddedPath(before, after, e, p);
      assert DescPath(before, p, e, b) && LeadsTo(before, e, b);
    }
  }

  // ---------- every careful step keeps it ----------

  lemma LandStep(u: Universe, s: Sys, p: nat, d: Digest)
    requires Kept(s) && Guard(u, true, s, Land(p, d))
    ensures Kept(Next(u, s, Land(p, d)))
  {
    var s' := Next(u, s, Land(p, d));
    var before, after := s.disk.blobs, s'.disk.blobs;
    forall e | e in s.disk.index ensures Intact(after, e) {
      assert Intact(before, e);
      AddingKeepsIntact(before, after, e);
    }
    OthersUnaffected(s, s', p, s'.procs[p]);
  }

  lemma ReadStep(u: Universe, s: Sys, p: nat)
    requires Kept(s) && Guard(u, true, s, ReadForTag(p)) && Careful(s, ReadForTag(p))
    ensures Kept(Next(u, s, ReadForTag(p)))
  {
    assert Disk(s.disk.index, s.disk.blobs) == s.disk;
    OthersUnaffected(s, Next(u, s, ReadForTag(p)), p, Tagging(s.procs[p].root, s.disk.index));
  }

  lemma TagStep(u: Universe, s: Sys, p: nat)
    requires Kept(s) && Guard(u, true, s, WriteTag(p))
    ensures Kept(Next(u, s, WriteTag(p)))
  {
    assert Holds(s.disk, s.procs[p]);
    TagKeepsComplete(Disk(s.procs[p].snapshot, s.disk.blobs), s.procs[p].root);
    OthersUnaffected(s, Next(u, s, WriteTag(p)), p, Idle);
  }

  /** An empty index can be written at any time: it needs nothing, and what others rely on are the blobs. */
  lemma EmptyStep(u: Universe, s: Sys, p: nat)
    requires Kept(s) && Guard(u, true, s, WriteEmpty(p))
    ensures Kept(Next(u, s, WriteEmpty(p)))
  {
    var s' := Next(u, s, WriteEmpty(p));
    forall q | q in s'.procs ensures Holds(s'.disk, s'.procs[q]) {
      if q != p { assert Holds(s.disk, s.procs[q]); }
    }
  }

  lemma PlanStep(u: Universe, s: Sys, p: nat)
    requires Kept(s) && Guard(u, true, s, Plan(p)) && Careful(s, Plan(p))
    ensures Kept(Next(u, s, Plan(p)))
  {
    var s' := Next(u, s, Plan(p));
    var i := FindTag(s.disk.index, s.procs[p].tag);
    assert Disk(s.disk.index, s.disk.blobs) == s.disk;
    if i < |s.disk.index| && Orphans(s.disk, i).Some? { DeleteSparesIff(s.disk, i); }
    OthersUnaffected(s, s', p, s'.procs[p]);
  }

  lemma TrimStep(u: Universe, s: Sys, p: nat)
    requires Kept(s) && Guard(u, true, s, Trim(p))
    ensures Kept(Next(u, s, Trim(p)))
  {
    var me := s.procs[p];
    assert Holds(s.disk, me);
    var s' := Next(u, s, Trim(p));
    BetweenIsComplete(Disk(me.snapshot, s.disk.blobs), me.victim, s'.disk);
    forall e, b | e in s'.disk.index && LeadsTo(s.disk.blobs, e, b) ensures b.digest !in me.orphans {
      assert Reach(s.disk.blobs, e, b.digest);
      assert Live(s'.disk.index, s.disk.blobs, b.digest);
    }
    OthersUnaffected(s, s', p, Removing(me.orphans));
  }

  lemma RemoveStep(u: Universe, s: Sys, p: nat, d: Digest)
    requires Kept(s) && Guard(u, true, s, Remove(p, d))
    ensures Kept(Next(u, s, Remove(p, d)))
  {
    var me := s.procs[p];
    var s' := Next(u, s, Remove(p, d));
    var index, before, after := s.disk.index, s.disk.blobs, s'.disk.blobs;
    assert Holds(s.disk, me);
    forall x | x in before && Live(index, before, x) ensures x in after {
      var e :| e in index && Reach(before, e, x);
    }
    RemovalKeepsComplete(index, before, after);
    forall e, b | e in index && LeadsTo(after, e, b) ensures b.digest !in me.orphans {
      var path :| DescPath(after, path, e, b);
      SamePaths(before, after, path);
      assert DescPath(before, path, e, b) && LeadsTo(before, e, b);
    }
    OthersUnaffected(s, s', p, Removing(me.orphans - {d}));
  }

  /** Steps that leave the disk alone. */
  lemma QuietStep(u: Universe, s: Sys, a: Act)
    requires Kept(s) && Guard(u, true, s, a)
    requires a.StartCopy? || a.StartDelete? || a.Mark? || a.Lock? || a.Finish? || a.Die?
    ensures Kept(Next(u, s, a))
  {
    var s' := Next(u, s, a);
    assert s'.disk == s.disk;
    forall q | q in s'.procs && InSession(s'.procs[q]) ensures s'.holder == Some(q) {}
    forall q | q in s'.procs ensures Holds(s'.disk, s'.procs[q]) {
      if q in s.procs { assert Holds(s.disk, s.procs[q]); }
    }
  }

  lemma Step(u: Universe, s: Sys, a: Act)
    requires Kept(s) && Guard(u, true, s, a) && Careful(s, a)
    ensures Kept(Next(u, s, a))
  {
    match a
    case Land(p, b) => LandStep(u, s, p, b);
    case ReadForTag(p) => ReadStep(u, s, p);
    case WriteEmpty(p) => EmptyStep(u, s, p);
    case WriteTag(p) => TagStep(u, s, p);
    case Plan(p) => PlanStep(u, s, p);
    case Trim(p) => TrimStep(u, s, p);
    case Remove(p, d) => RemoveStep(u, s, p, d);
    case _ => QuietStep(u, s, a);
  }

  // ---------- and a careless one loses ----------

  lemma {:induction false} RunStep(u: Universe, locking: bool, s: Sys, run: seq<Act>, t: Sys, a: Act)
    requires IsRun(u, locking, s, run, t) && Guard(u, locking, t, a)
    ensures IsRun(u, locking, s, run + [a], Next(u, t, a))
    decreases |run|
  {
    if run == [] {
      assert (run + [a])[1..] == [];
    } else {
      assert (run + [a])[1..] == run[1..] + [a];
      RunStep(u, locking, Next(u, s, run[0]), run[1..], t, a);
    }
  }

  /** Every locked run from here ends in a complete layout. */
  ghost predicate AlwaysComplete(u: Universe, s: Sys) {
    forall run, t | IsRun(u, true, s, run, t) :: Complete(t.disk)
  }

  lemma LosesNext(u: Universe, s: Sys, a: Act)
    requires Guard(u, true, s, a) && !AlwaysComplete(u, Next(u, s, a))
    ensures !AlwaysComplete(u, s)
  {
    var run, t :| IsRun(u, true, Next(u, s, a), run, t) && !Complete(t.disk);
    assert ([a] + run)[1..] == run;
    assert IsRun(u, true, s, [a] + run, t);
  }

  lemma LosesNow(u: Universe, s: Sys)
    requires !Complete(s.disk)
    ensures !AlwaysComplete(u, s)
  {
    assert IsRun(u, true, s, [], s);
  }

  /** Tagging what is not intact is enough. */
  lemma CarelessTag(u: Universe, s: Sys, p: nat)
    requires Guard(u, true, s, ReadForTag(p)) && !Careful(s, ReadForTag(p))
    ensures !AlwaysComplete(u, s)
  {
    var read := Next(u, s, ReadForTag(p));
    var tagged := Next(u, read, WriteTag(p));
    var root := s.procs[p].root;
    assert root in tagged.disk.index by {
      assert TagIndex(s.disk.index, root)[FindDigest(s.disk.index, root.digest)] == root;
    }
    assert !Intact(tagged.disk.blobs, root);
    LosesNow(u, tagged);
    LosesNext(u, read, WriteTag(p));
    LosesNext(u, s, ReadForTag(p));
  }

  /** So is removing one blob a survivor needs. */
  lemma CarelessPlan(u: Universe, s: Sys, p: nat)
    requires Guard(u, true, s, Plan(p)) && !Careful(s, Plan(p))
    ensures !AlwaysComplete(u, s)
  {
    var i := FindTag(s.disk.index, s.procs[p].tag);
    DeleteSparesIff(s.disk, i);
    var x :| x in Orphans(s.disk, i).value && Live(Without(s.disk.index, i), s.disk.blobs, x);
    var planned := Next(u, s, Plan(p));
    TakenOut(u, planned, p, x);
    LosesNext(u, s, Plan(p));
  }

  lemma TakenOut(u: Universe, s: Sys, p: nat, x: Digest)
    requires ProcOf(s, p).Trimming? && ProcOf(s, p).victim < |ProcOf(s, p).snapshot| && x in ProcOf(s, p).orphans
    requires Live(Without(ProcOf(s, p).snapshot, ProcOf(s, p).victim), s.disk.blobs, x)
    ensures !AlwaysComplete(u, s)
  {
    var trimmed := Next(u, s, Trim(p));
    var removed := Next(u, trimmed, Remove(p, x));
    LiveIsMissed(trimmed.disk.index, s.disk.blobs, x);
    LosesNow(u, removed);
    LosesNext(u, trimmed, Remove(p, x));
    LosesNext(u, s, Trim(p));
  }

  lemma LiveIsMissed(index: seq<Descriptor>, blobs: Blobs, x: Digest)
    requires Live(index, blobs, x)
    ensures !Complete(Disk(index, blobs - {x}))
  {
    var e :| e in index && Reach(blobs, e, x);
    var y :| LeadsTo(blobs, e, y) && y.digest == x;
    var p :| DescPath(blobs, p, e, y);
    LeadsToSelf(blobs - {x}, e);
    BrokenPath(blobs, blobs - {x}, p, 0);
  }

  lemma CarelessLoses(u: Universe, s: Sys, a: Act)
    requires Guard(u, true, s, a) && !Careful(s, a)
    ensures !AlwaysComplete(u, s)
  {
    if a.ReadForTag? { CarelessTag(u, s, a.p); } else { CarelessPlan(u, s, a.p); }
  }

  // ---------- what the lock keeps ----------

  /** No run can come to a careless step. */
  ghost predicate AlwaysCareful(u: Universe, s: Sys) {
    forall run, t, a | IsRun(u, true, s, run, t) && Guard(u, true, t, a) :: Careful(t, a)
  }

  lemma CarefulNext(u: Universe, s: Sys, a: Act)
    requires AlwaysCareful(u, s) && Guard(u, true, s, a)
    ensures Careful(s, a) && AlwaysCareful(u, Next(u, s, a))
  {
    assert IsRun(u, true, s, [], s);
    forall run, t, b | IsRun(u, true, Next(u, s, a), run, t) && Guard(u, true, t, b) ensures Careful(t, b) {
      assert ([a] + run)[1..] == run;
      assert IsRun(u, true, s, [a] + run, t);
    }
  }

  lemma {:induction false} CarefulKeeps(u: Universe, s: Sys, run: seq<Act>, t: Sys)
    requires Kept(s) && AlwaysCareful(u, s) && IsRun(u, true, s, run, t)
    ensures Kept(t)
    decreases |run|
  {
    if run != [] {
      CarefulNext(u, s, run[0]);
      Step(u, s, run[0]);
      CarefulKeeps(u, Next(u, s, run[0]), run[1..], t);
    }
  }

  lemma {:induction false} CarelessRunLoses(u: Universe, s: Sys, run: seq<Act>, t: Sys, a: Act)
    requires IsRun(u, true, s, run, t) && Guard(u, true, t, a) && !Careful(t, a)
    ensures !AlwaysComplete(u, s)
    decreases |run|
  {
    if run == [] {
      CarelessLoses(u, s, a);
    } else {
      CarelessRunLoses(u, Next(u, s, run[0]), run[1..], t, a);
      LosesNext(u, s, run[0]);
    }
  }

  /** With the lock, and whatever the digests are used for: every state that any mix of copies, creations,
      deletes and deaths can reach is complete if and only if no copy can come to tag an image that is not
      intact and no delete to take what a survivor needs. */
  lemma LockKeepsCompleteIff(u: Universe, s: Sys)
    requires Kept(s)
    ensures AlwaysComplete(u, s) <==> AlwaysCareful(u, s)
  {
    if AlwaysCareful(u, s) {
      forall run, t | IsRun(u, true, s, run, t) ensures Complete(t.disk) { CarefulKeeps(u, s, run, t); }
    } else {
      var run, t, a :| IsRun(u, true, s, run, t) && Guard(u, true, t, a) && !Careful(t, a);
      CarelessRunLoses(u, s, run, t, a);
    }
  }

  /** The lock alone does not do it: a layout that is complete and quiet, and one delete that takes a blob from
      under an image of another tag. */
  lemma MixedUseLosesUnderLock(u: Universe)
    ensures Kept(Sys(Disk([KEEP, DROP], MIXED_STORE), true, None, map[]))
    ensures !AlwaysComplete(u, Sys(Disk([KEEP, DROP], MIXED_STORE), true, None, map[]))
  {
    var d := Disk([KEEP, DROP], MIXED_STORE);
    MixedUseDeleteLoses();
    DeleteSparesIff(d, 1);
    SharedDeleteLoses(u, d, "drop");
  }

  lemma SharedDeleteLoses(u: Universe, d: Disk, tag: string)
    requires FindTag(d.index, tag) < |d.index| && Orphans(d, FindTag(d.index, tag)).Some?
    requires !Covered(d, FindTag(d.index, tag))
    ensures !AlwaysComplete(u, Sys(d, true, None, map[]))
  {
    var s := Sys(d, true, None, map[]);
    var started := Next(u, s, StartDelete(0, tag));
    var locked := Next(u, started, Lock(0));
    assert ProcOf(locked, 0) == Deleting(tag) && locked.disk == d;
    CarelessPlan(u, locked, 0);
    LosesNext(u, started, Lock(0));
    LosesNext(u, s, StartDelete(0, tag));
  }

  // ---------- where every digest has one use ----------

  /** What a document refers to is what it says it is; what it calls its config or a layer is no document. */
  ghost predicate TypedDoc(u: Universe, doc: Content)
    requires doc.Doc?
  {
    && (forall m | m in doc.members :: SameKind(m.media, u.kind(m.digest)))
    && (doc.subject.Some? ==> SameKind(doc.subject.value.media, u.kind(doc.subject.value.digest)))
    && !IsDoc(u.kind(doc.config.digest))
    && (forall l | l in doc.layers :: !IsDoc(u.kind(l.digest)))
  }

  ghost predicate Typed(u: Universe) {
    && (forall r | r in u.roots :: SameKind(r.media, u.kind(r.digest)))
    && (forall d | ReadDoc(u.content, d).Some? :: TypedDoc(u, ReadDoc(u.content, d).value))
  }

  ghost predicate Within(u: Universe, blobs: Blobs) {
    forall d | d in blobs :: d in u.content && blobs[d] == u.content[d]
  }

  lemma {:induction false} TypedPath(u: Universe, blobs: Blobs, p: seq<Descriptor>)
    requires Typed(u) && Within(u, blobs) && IsDescPath(blobs, p) && SameKind(p[0].media, u.kind(p[0].digest))
    ensures SameKind(p[|p| - 1].media, u.kind(p[|p| - 1].digest))
    decreases |p|
  {
    if |p| > 1 {
      assert p[1] in Children(blobs, p[0]);
      assert ReadDoc(blobs, p[0].digest) == ReadDoc(u.content, p[0].digest);
      TypedPath(u, blobs, p[1..]);
    }
  }

  lemma TypedOneUse(u: Universe, blobs: Blobs, e: Descriptor)
    requires Typed(u) && Within(u, blobs) && SameKind(e.media, u.kind(e.digest))
    ensures OneUse(blobs, e)
  {
    forall b | LeadsTo(blobs, e, b) ensures SameKind(b.media, u.kind(b.digest)) {
      var p :| DescPath(blobs, p, e, b);
      TypedPath(u, blobs, p);
    }
  }

  /** No document is taken for anything else. */
  ghost predicate ClaimsFit(u: Universe, claims: Claims) {
    forall d | d in claims && IsDoc(u.kind(d)) :: SameKind(claims[d], u.kind(d))
  }

  lemma ClaimedFit(u: Universe, root: Descriptor, claims: Claims)
    requires Typed(u) && root in u.roots && Claimed(u, root, claims)
    ensures ClaimsFit(u, claims)
  {
    forall d | d in claims && IsDoc(u.kind(d)) ensures SameKind(claims[d], u.kind(d)) {
      if d != root.digest {
        assert ClaimedBelow(u, claims, d);
        var up, c :|
          up in claims && c in CopyChildren(u, As(claims[up], up)) && c.digest == d && SameKind(c.media, claims[d]);
        ChildFits(u, As(claims[up], up), c);
      }
    }
  }

  lemma ChildFits(u: Universe, up: Descriptor, c: Descriptor)
    requires Typed(u) && c in CopyChildren(u, up) && IsDoc(u.kind(c.digest))
    ensures SameKind(c.media, u.kind(c.digest))
  {
    var doc := ReadDoc(u.content, up.digest).value;
    assert up.media.Manifest? ==> c in [doc.config] || c in doc.layers || doc.subject == Some(c);
  }

  ghost predicate Landed(u: Universe, blobs: Blobs, claims: Claims, landed: set<Digest>) {
    forall d | d in landed :: d in blobs && d in claims && Readable(u.content, As(claims[d], d)) &&
      forall c | c in CopyChildren(u, As(claims[d], d)) :: c.digest in landed
  }

  /** What delete calls a child a copy does too, though it may say more of it. */
  lemma CopiedChild(u: Universe, blobs: Blobs, up: Descriptor, down: Descriptor) returns (c: Descriptor)
    requires Within(u, blobs) && down in Children(blobs, up)
    ensures IsDoc(up.media) && c in CopyChildren(u, up) && c.digest == down.digest
  {
    var i :| 0 <= i < |Children(blobs, up)| && Children(blobs, up)[i] == down;
    c := CopyChildren(u, up)[i];
    assert i == 0 || up.media.Index? || c == ReadDoc(u.content, up.digest).value.layers[i - 1];
  }

  lemma ChildKind(u: Universe, blobs: Blobs, up: Descriptor, down: Descriptor)
    requires Typed(u) && Within(u, blobs) && down in Children(blobs, up)
    ensures SameKind(down.media, u.kind(down.digest))
  {
    assert ReadDoc(u.content, up.digest) == ReadDoc(blobs, up.digest);
    assert TypedDoc(u, ReadDoc(u.content, up.digest).value);
    var i :| 0 <= i < |Children(blobs, up)| && Children(blobs, up)[i] == down;
  }

  /** A descriptor's children are landed with its digest. */
  lemma LandedChild(u: Universe, blobs: Blobs, claims: Claims, landed: set<Digest>, up: Descriptor, down: Descriptor)
    requires ClaimsFit(u, claims) && Landed(u, blobs, claims, landed) && Within(u, blobs)
    requires down in Children(blobs, up) && up.digest in landed && SameKind(up.media, u.kind(up.digest))
    ensures down.digest in landed
  {
    var c := CopiedChild(u, blobs, up, down);
    assert claims[up.digest] == up.media;
    assert CopyChildren(u, up) == CopyChildren(u, As(claims[up.digest], up.digest));
  }

  lemma {:induction false} LandedPath(u: Universe, blobs: Blobs, claims: Claims, landed: set<Digest>,
                                      p: seq<Descriptor>, i: nat)
    requires Typed(u) && ClaimsFit(u, claims) && Landed(u, blobs, claims, landed) && Within(u, blobs)
    requires IsDescPath(blobs, p) && i < |p| && p[i].digest in landed && SameKind(p[i].media, u.kind(p[i].digest))
    ensures p[|p| - 1].digest in landed && SameKind(p[|p| - 1].media, u.kind(p[|p| - 1].digest))
    decreases |p| - i
  {
    if i < |p| - 1 {
      assert p[i + 1] in Children(blobs, p[i]);
      LandedChild(u, blobs, claims, landed, p[i], p[i + 1]);
      ChildKind(u, blobs, p[i], p[i + 1]);
      LandedPath(u, blobs, claims, landed, p, i + 1);
    }
  }

  /** A root that has landed, with everything below it, is intact. */
  lemma LandedIsIntact(u: Universe, blobs: Blobs, claims: Claims, landed: set<Digest>, root: Descriptor)
    requires Typed(u) && ClaimsFit(u, claims) && Landed(u, blobs, claims, landed) && Within(u, blobs)
    requires root.digest in landed && SameKind(root.media, u.kind(root.digest))
    ensures Intact(blobs, root)
  {
    forall b | LeadsTo(blobs, root, b) ensures b.digest in blobs && Readable(blobs, b) {
      var p :| DescPath(blobs, p, root, b);
      LandedPath(u, blobs, claims, landed, p, 0);
    }
  }

  ghost predicate KindsAre(u: Universe, index: seq<Descriptor>) {
    forall e | e in index :: SameKind(e.media, u.kind(e.digest))
  }

  ghost predicate ProcKinds(u: Universe, blobs: Blobs, me: Proc) {
    match me
    case Creating(root, claims) => root in u.roots && ClaimsFit(u, claims)
    case Created(root, claims) => root in u.roots && ClaimsFit(u, claims)
    case WantsCopy(root, claims) => root in u.roots && ClaimsFit(u, claims)
    case Copying(root, claims, landed) => root in u.roots && ClaimsFit(u, claims) && Landed(u, blobs, claims, landed)
    case Tagging(root, snapshot) => root in u.roots && KindsAre(u, snapshot)
    case Trimming(_, snapshot, _, _) => KindsAre(u, snapshot)
    case _ => true
  }

  ghost predicate Sound(u: Universe, d: Disk) {
    Within(u, d.blobs) && Complete(d) && KindsAre(u, d.index)
  }

  ghost predicate Inv(u: Universe, s: Sys) {
    && Typed(u) && Kept(s) && Sound(u, s.disk)
    && forall p | p in s.procs :: ProcKinds(u, s.disk.blobs, s.procs[p])
  }

  /** There every step is careful. */
  lemma TypedIsCareful(u: Universe, s: Sys, a: Act)
    requires Inv(u, s) && Guard(u, true, s, a)
    ensures Careful(s, a)
  {
    if a.ReadForTag? {
      assert ProcKinds(u, s.disk.blobs, s.procs[a.p]);
      LandedIsIntact(u, s.disk.blobs, s.procs[a.p].claims, s.procs[a.p].landed, s.procs[a.p].root);
    } else if a.Plan? {
      var i := FindTag(s.disk.index, s.procs[a.p].tag);
      if i < |s.disk.index| && Orphans(s.disk, i).Some? {
        SoundIsCovered(u, s.disk, i);
      }
    }
  }

  lemma SoundInOrder(u: Universe, d: Disk)
    requires Typed(u) && Sound(u, d)
    ensures AllInOrder(d.index, d.blobs)
  {
    forall e | e in d.index ensures InOrder(d.blobs, e) {
      TypedOneUse(u, d.blobs, e);
      OneUseIsInOrder(d.blobs, e);
    }
  }

  lemma SoundIsCovered(u: Universe, d: Disk, i: nat)
    requires Typed(u) && Sound(u, d) && i < |d.index| && Orphans(d, i).Some?
    ensures Covered(d, i)
  {
    SoundInOrder(u, d);
    assert forall e | e in Without(d.index, i) :: e in d.index;
    InOrderSpares(d, i);
    DeleteSparesIff(d, i);
  }

  lemma TypedStep(u: Universe, s: Sys, a: Act)
    requires Inv(u, s) && Guard(u, true, s, a)
    ensures Inv(u, Next(u, s, a))
  {
    TypedIsCareful(u, s, a);
    Step(u, s, a);
    BlobsStayWithin(u, s, a);
    IndexKindsStay(u, s, a);
    ProcKindsStay(u, s, a);
  }

  lemma BlobsStayWithin(u: Universe, s: Sys, a: Act)
    requires Within(u, s.disk.blobs) && Guard(u, true, s, a)
    ensures Within(u, Next(u, s, a).disk.blobs)
  {
  }

  lemma IndexKindsStay(u: Universe, s: Sys, a: Act)
    requires Inv(u, s) && Guard(u, true, s, a)
    ensures KindsAre(u, Next(u, s, a).disk.index)
  {
    assert a.p in s.procs ==> ProcKinds(u, s.disk.blobs, s.procs[a.p]);
  }

  lemma OwnKindsStay(u: Universe, s: Sys, a: Act)
    requires Inv(u, s) && Guard(u, true, s, a)
    ensures ProcKinds(u, Next(u, s, a).disk.blobs, ProcOf(Next(u, s, a), a.p))
  {
    assert a.p in s.procs ==> ProcKinds(u, s.disk.blobs, s.procs[a.p]);
    if a.StartCopy? { ClaimedFit(u, a.root, a.claims); }
  }

  /** Another copy is at work only while nobody else removes. */
  lemma OtherKindsStay(u: Universe, s: Sys, a: Act, q: nat)
    requires Inv(u, s) && Guard(u, true, s, a) && q in s.procs && q != a.p
    ensures ProcKinds(u, Next(u, s, a).disk.blobs, s.procs[q])
  {
    assert ProcKinds(u, s.disk.blobs, s.procs[q]);
  }

  lemma ProcKindsStay(u: Universe, s: Sys, a: Act)
    requires Inv(u, s) && Guard(u, true, s, a)
    ensures forall p | p in Next(u, s, a).procs :: ProcKinds(u, Next(u, s, a).disk.blobs, Next(u, s, a).procs[p])
  {
    OwnKindsStay(u, s, a);
    forall p | p in Next(u, s, a).procs && p != a.p
      ensures ProcKinds(u, Next(u, s, a).disk.blobs, Next(u, s, a).procs[p])
    {
      OtherKindsStay(u, s, a, p);
    }
  }

  /** With the lock, where every digest has one use, every index entry's blobs are present and readable in
      every state any mix of copies, creations, deletes and deaths can reach from a layout where they are. */
  lemma {:induction false} LockKeepsComplete(u: Universe, s: Sys, run: seq<Act>, t: Sys)
    requires Inv(u, s) && IsRun(u, true, s, run, t)
    ensures Inv(u, t) && Complete(t.disk)
    decreases |run|
  {
    if run != [] {
      TypedStep(u, s, run[0]);
      LockKeepsComplete(u, Next(u, s, run[0]), run[1..], t);
    }
  }

  /** A layout nobody is working on starts out in the invariant. */
  lemma QuietStart(u: Universe, d: Disk, made: bool)
    requires Complete(d)
    ensures Kept(Sys(d, made, None, map[]))
    ensures Typed(u) && Sound(u, d) ==> Inv(u, Sys(d, made, None, map[]))
  {
  }

  // ---------- no index write is lost ----------

  /** Whoever has read the index to write it again has read what it still is. */
  ghost predicate Current(s: Sys) {
    forall p | p in s.procs && (s.procs[p].Tagging? || s.procs[p].Trimming?) :: s.procs[p].snapshot == s.disk.index
  }

  /** The step leaves the index alone, or sets its image's tag in it as it is, or takes the one entry it was asked
      to delete out of it as it is. */
  ghost predicate Edits(u: Universe, s: Sys, a: Act)
    requires Guard(u, false, s, a)
  {
    var me, now := ProcOf(s, a.p), Next(u, s, a).disk.index;
    || now == s.disk.index
    || (a.WriteTag? && Retags(s.disk.index, me.root, now))
    || (a.Trim? && TakesOut(s.disk.index, me.tag, now))
  }

  /** All writes of a locked run are edits of the index as it is: none undoes another's. */
  ghost predicate EditsOnly(u: Universe, s: Sys, run: seq<Act>)
    decreases |run|
  {
    run != [] && Guard(u, true, s, run[0]) ==> Edits(u, s, run[0]) && EditsOnly(u, Next(u, s, run[0]), run[1..])
  }

  /** Whenever somebody writes the empty index of a new layout, the index is empty. */
  ghost predicate CreatesOnlyEmpty(u: Universe, s: Sys, run: seq<Act>)
    decreases |run|
  {
    run != [] && Guard(u, true, s, run[0]) ==>
      (run[0].WriteEmpty? ==> s.disk.index == []) && CreatesOnlyEmpty(u, Next(u, s, run[0]), run[1..])
  }

  lemma ExclusiveStays(u: Universe, s: Sys, a: Act)
    requires Exclusive(s) && Guard(u, true, s, a)
    ensures Exclusive(Next(u, s, a))
  {
    OwnVictimKnown(u, s, a);
    var s' := Next(u, s, a);
    forall p | p in s'.procs && p != a.p ensures VictimKnown(s'.procs[p]) { assert s'.procs[p] == s.procs[p]; }
  }

  lemma OwnVictimKnown(u: Universe, s: Sys, a: Act)
    requires Guard(u, true, s, a)
    ensures VictimKnown(ProcOf(Next(u, s, a), a.p))
  {
  }

  lemma CurrentWrite(u: Universe, s: Sys, a: Act)
    requires Exclusive(s) && Current(s) && Guard(u, true, s, a) && (a.WriteTag? || a.Trim?)
    ensures Edits(u, s, a) && Current(Next(u, s, a))
  {
    if a.WriteTag? {
      TagIndexRetags(s.disk.index, s.procs[a.p].root);
    } else {
      WithoutTakesOut(s.disk.index, s.procs[a.p].tag);
    }
  }

  lemma CurrentElse(u: Universe, s: Sys, a: Act)
    requires Current(s) && Guard(u, true, s, a) && (a.WriteEmpty? ==> s.disk.index == []) && !a.WriteTag? && !a.Trim?
    ensures Edits(u, s, a) && Current(Next(u, s, a))
  {
  }

  lemma CurrentStep(u: Universe, s: Sys, a: Act)
    requires Exclusive(s) && Current(s) && Guard(u, true, s, a) && (a.WriteEmpty? ==> s.disk.index == [])
    ensures Edits(u, s, a) && Exclusive(Next(u, s, a)) && Current(Next(u, s, a))
  {
    ExclusiveStays(u, s, a);
    if a.WriteTag? || a.Trim? { CurrentWrite(u, s, a); } else { CurrentElse(u, s, a); }
  }

  /** In a locked run no index write is lost if and only if no empty index is written over another one. */
  lemma {:induction false} NoWriteIsLostIff(u: Universe, s: Sys, run: seq<Act>, t: Sys)
    requires Exclusive(s) && Current(s) && IsRun(u, true, s, run, t)
    ensures EditsOnly(u, s, run) <==> CreatesOnlyEmpty(u, s, run)
    decreases |run|
  {
    if run != [] && (run[0].WriteEmpty? ==> s.disk.index == []) {
      CurrentStep(u, s, run[0]);
      NoWriteIsLostIff(u, Next(u, s, run[0]), run[1..], t);
    }
  }

  /** The layout is there and nobody is about to create it. */
  ghost predicate Settled(s: Sys) {
    s.made && forall p | p in s.procs :: !s.procs[p].Creating? && !s.procs[p].Created?
  }

  lemma SettledStays(u: Universe, s: Sys, a: Act)
    requires Settled(s) && Guard(u, true, s, a)
    ensures !a.WriteEmpty? && Settled(Next(u, s, a))
  {
  }

  /** In a layout that is there no index write is ever lost. */
  lemma {:induction false} SettledLosesNoWrite(u: Universe, s: Sys, run: seq<Act>, t: Sys)
    requires Exclusive(s) && Current(s) && Settled(s) && IsRun(u, true, s, run, t)
    ensures EditsOnly(u, s, run)
    decreases |run|
  {
    if run != [] {
      SettledStays(u, s, run[0]);
      CurrentStep(u, s, run[0]);
      SettledLosesNoWrite(u, Next(u, s, run[0]), run[1..], t);
    }
  }

  predicate Creates(p: Proc) {
    p.Creating? || p.Created?
  }

  /** Whoever does anything with the layout has found it there, or has made it. */
  ghost predicate FoundThere(s: Sys) {
    forall p | p in s.procs && !s.procs[p].Idle? && !s.procs[p].Creating? :: s.made
  }

  lemma FoundThereStays(u: Universe, locking: bool, s: Sys, a: Act)
    requires FoundThere(s) && Guard(u, locking, s, a)
    ensures FoundThere(Next(u, s, a)) && (s.made ==> Next(u, s, a).made)
    ensures s.made ==> forall p | Creates(ProcOf(Next(u, s, a), p)) :: Creates(ProcOf(s, p))
  {
  }

  /** Once it is there it stays, and only those who had looked before can still take it for new. */
  lemma {:induction false} OnceMade(u: Universe, locking: bool, s: Sys, run: seq<Act>, t: Sys)
    requires FoundThere(s) && IsRun(u, locking, s, run, t)
    ensures FoundThere(t)
    ensures s.made ==> t.made && forall p | Creates(ProcOf(t, p)) :: Creates(ProcOf(s, p))
    decreases |run|
  {
    if run != [] {
      FoundThereStays(u, locking, s, run[0]);
      OnceMade(u, locking, Next(u, s, run[0]), run[1..], t);
    }
  }

  /** Nobody tags another image with it, or its image anew, and nobody deletes it. */
  ghost predicate SparesTag(u: Universe, s: Sys, run: seq<Act>, tag: string, d: Digest)
    decreases |run|
  {
    run != [] && Guard(u, true, s, run[0]) ==>
      var me := ProcOf(s, run[0].p);
      && (run[0].WriteTag? ==> me.root.tag != tag && me.root.digest != d)
      && (run[0].Trim? ==> me.tag != tag)
      && SparesTag(u, Next(u, s, run[0]), run[1..], tag, d)
  }

  /** Then it stands for the same image as long as no index write is lost. */
  lemma {:induction false} TagOutlives(u: Universe, s: Sys, run: seq<Act>, t: Sys, tag: string, e: Descriptor)
    requires IsRun(u, true, s, run, t) && EditsOnly(u, s, run) && SparesTag(u, s, run, tag, e.digest)
    requires FindTag(s.disk.index, tag) < |s.disk.index| && s.disk.index[FindTag(s.disk.index, tag)] == e
    ensures FindTag(t.disk.index, tag) < |t.disk.index| && t.disk.index[FindTag(t.disk.index, tag)] == e
    decreases |run|
  {
    if run != [] {
      EditKeepsTag(u, s, run[0], tag, e);
      TagOutlives(u, Next(u, s, run[0]), run[1..], t, tag, e);
    }
  }

  lemma EditKeepsTag(u: Universe, s: Sys, a: Act, tag: string, e: Descriptor)
    requires Guard(u, false, s, a) && Edits(u, s, a)
    requires a.WriteTag? ==> ProcOf(s, a.p).root.tag != tag && ProcOf(s, a.p).root.digest != e.digest
    requires a.Trim? ==> ProcOf(s, a.p).tag != tag
    requires FindTag(s.disk.index, tag) < |s.disk.index| && s.disk.index[FindTag(s.disk.index, tag)] == e
    ensures var now := Next(u, s, a).disk.index; FindTag(now, tag) < |now| && now[FindTag(now, tag)] == e
  {
    var was, now := s.disk.index, Next(u, s, a).disk.index;
    if now != was {
      if a.WriteTag? {
        RetagKeepsTag(was, ProcOf(s, a.p).root, now, tag);
      } else {
        TakeOutKeepsTag(was, ProcOf(s, a.p).tag, now, tag);
      }
    }
  }

  // ---------- the lock comes free ----------

  /** Whoever holds the lock is inside its session. */
  ghost predicate HeldInside(s: Sys) {
    s.holder.Some? ==> InSession(ProcOf(s, s.holder.value))
  }

  predicate WantsLock(p: Proc) {
    p.WantsCopy? || p.WantsDelete?
  }

  lemma HeldInsideStays(u: Universe, s: Sys, a: Act)
    requires HeldInside(s) && Guard(u, true, s, a)
    ensures HeldInside(Next(u, s, a))
  {
  }

  /** However processes end, well, in failure or by dying, no lock stays behind. */
  lemma {:induction false} NoLockIsLeft(u: Universe, s: Sys, run: seq<Act>, t: Sys)
    requires HeldInside(s) && IsRun(u, true, s, run, t)
    ensures HeldInside(t)
    decreases |run|
  {
    if run != [] {
      HeldInsideStays(u, s, run[0]);
      NoLockIsLeft(u, Next(u, s, run[0]), run[1..], t);
    }
  }

  /** The step that ends the holder's session lets anybody in who waits. */
  lemma NextGetsIn(u: Universe, s: Sys, a: Act, q: nat)
    requires HeldInside(s) && s.holder == Some(a.p) && Guard(u, true, s, a)
    requires !InSession(ProcOf(Next(u, s, a), a.p)) && WantsLock(ProcOf(Next(u, s, a), q))
    ensures Guard(u, true, Next(u, s, a), Lock(q))
  {
  }

  /** A process can die whatever it is doing: it is gone, leaves the disk as it is then, and the lock to whoever
      waits for it. */
  lemma DeathFreesLock(u: Universe, s: Sys, p: nat, q: nat)
    requires HeldInside(s) && s.holder == Some(p) && p != q && WantsLock(ProcOf(s, q))
    ensures Guard(u, true, s, Die(p))
    ensures var t := Next(u, s, Die(p)); ProcOf(t, p) == Idle && t.disk == s.disk && Guard(u, true, t, Lock(q))
  {
  }

  /** So whoever waits for the lock can still get it, whatever has happened, and nobody has to die for it. */
  lemma LockCanBeHad(u: Universe, start: Sys, before: seq<Act>, s: Sys, q: nat) returns (run: seq<Act>, t: Sys)
    requires start.holder.None? && IsRun(u, true, start, before, s) && WantsLock(ProcOf(s, q))
    ensures IsRun(u, true, s, run, t) && t.holder == Some(q) && InSession(ProcOf(t, q))
    ensures forall a | a in run :: !a.Die? && (a.p == q || s.holder == Some(a.p))
  {
    NoLockIsLeft(u, start, before, s);
    run, t := [], s;
    if s.holder.Some? {
      var p := s.holder.value;
      run, t := [Finish(p)], Next(u, s, Finish(p));
      assert run[1..] == [];
      NextGetsIn(u, s, Finish(p), q);
    }
    RunStep(u, true, s, run, t, Lock(q));
    run, t := run + [Lock(q)], Next(u, t, Lock(q));
  }

  // ---------- what the lock is for ----------

  const CONFIG_DESC := Plain(Other, 5)
  const LAYER_DESC := Plain(Layer, 9)
  const OLD_IMAGE := Descriptor(Manifest, 1, 0, "a")
  const NEW_IMAGE := Descriptor(Manifest, 2, 0, "b")

  /** Images 1 and 2 share their config and their layer. */
  const SHARED: Universe := Universe(
    map[1 := File(Doc([], CONFIG_DESC, [LAYER_DESC], None)), 2 := File(Doc([], CONFIG_DESC, [LAYER_DESC], None)),
        5 := File(Raw(0)), 9 := File(Raw(1))],
    {OLD_IMAGE, NEW_IMAGE},
    d => if d == 1 || d == 2 then Manifest else Other)

  const OLD_CLAIMS: Claims := map[1 := Manifest, 5 := Other, 9 := Layer]
  const NEW_CLAIMS: Claims := map[2 := Manifest, 5 := Other, 9 := Layer]

  lemma ImageChildren()
    ensures CopyChildren(SHARED, As(Manifest, 1)) == [CONFIG_DESC, LAYER_DESC] == CopyChildren(SHARED, As(Manifest, 2))
  {
  }

  lemma ImageClaimed(u: Universe, image: Descriptor)
    requires image.media.Manifest? && image.digest < 5
    requires CopyChildren(u, As(Manifest, image.digest)) == [CONFIG_DESC, LAYER_DESC]
    ensures Claimed(u, image, map[image.digest := Manifest, 5 := Other, 9 := Layer])
  {
    var claims := map[image.digest := Manifest, 5 := Other, 9 := Layer];
    var kids := CopyChildren(u, As(claims[image.digest], image.digest));
    assert kids[0] == CONFIG_DESC && kids[1] == LAYER_DESC;
    assert CONFIG_DESC in kids && ClaimedBelow(u, claims, 5);
    assert LAYER_DESC in kids && ClaimedBelow(u, claims, 9);
  }

  lemma ClaimsAre()
    ensures Claimed(SHARED, OLD_IMAGE, OLD_CLAIMS) && Claimed(SHARED, NEW_IMAGE, NEW_CLAIMS)
  {
    ImageChildren();
    ImageClaimed(SHARED, OLD_IMAGE);
    ImageClaimed(SHARED, NEW_IMAGE);
  }

  /** Image 1 is in the layout and nobody is at work. */
  function OneImage(): Sys {
    Sys(Disk([OLD_IMAGE], SHARED.content - {2}), true, None, map[])
  }

  /** Process 0 has taken image 1 out of the index and is about to remove its blobs, as it
      lawfully may; process 1 is about to copy image 2. */
  function MidDelete(): Sys {
    Sys(Disk([], SHARED.content - {2}), true, Some(0),
        map[0 := Removing({1, 5, 9}), 1 := WantsCopy(NEW_IMAGE, NEW_CLAIMS)])
  }

  /** The lock only takes runs away. */
  lemma {:induction false} LockedIsRun(u: Universe, s: Sys, run: seq<Act>, t: Sys)
    requires IsRun(u, true, s, run, t)
    ensures IsRun(u, false, s, run, t)
    decreases |run|
  {
    if run != [] { LockedIsRun(u, Next(u, s, run[0]), run[1..], t); }
  }

  /** A delete and a copy start in a quiet layout, and the delete gets the lock. */
  lemma WaitingForLock(u: Universe, d: Disk, tag: string, root: Descriptor, claims: Claims) returns (run: seq<Act>, t: Sys)
    requires root in u.roots && Claimed(u, root, claims)
    ensures IsRun(u, true, Sys(d, true, None, map[]), run, t)
    ensures t == Sys(d, true, Some(0), map[0 := Deleting(tag), 1 := WantsCopy(root, claims)])
  {
    var s := Sys(d, true, None, map[]);
    run, t := [StartDelete(0, tag)], Next(u, s, StartDelete(0, tag));
    assert run[1..] == [];
    RunStep(u, true, s, run, t, StartCopy(1, root, claims));
    run, t := run + [StartCopy(1, root, claims)], Next(u, t, StartCopy(1, root, claims));
    RunStep(u, true, s, run, t, Lock(0));
    run, t := run + [Lock(0)], Next(u, t, Lock(0));
    assert t.procs == map[0 := Deleting(tag), 1 := WantsCopy(root, claims)];
  }

  lemma DeletePlanned(u: Universe, d: Disk, tag: string, i: nat, root: Descriptor, claims: Claims)
    returns (run: seq<Act>, t: Sys)
    requires root in u.roots && Claimed(u, root, claims)
    requires FindTag(d.index, tag) == i < |d.index| && Orphans(d, i).Some?
    ensures IsRun(u, true, Sys(d, true, None, map[]), run, t)
    ensures t == Sys(d, true, Some(0), map[0 := Trimming(tag, d.index, i, Orphans(d, i).value), 1 := WantsCopy(root, claims)])
  {
    run, t := WaitingForLock(u, d, tag, root, claims);
    RunStep(u, true, Sys(d, true, None, map[]), run, t, Plan(0));
    run, t := run + [Plan(0)], Next(u, t, Plan(0));
    assert t.procs == map[0 := Trimming(tag, d.index, i, Orphans(d, i).value), 1 := WantsCopy(root, claims)];
  }

  lemma DeleteTrimmed(u: Universe, d: Disk, tag: string, i: nat, root: Descriptor, claims: Claims)
    returns (run: seq<Act>, t: Sys)
    requires root in u.roots && Claimed(u, root, claims)
    requires FindTag(d.index, tag) == i < |d.index| && Orphans(d, i).Some?
    ensures IsRun(u, true, Sys(d, true, None, map[]), run, t)
    ensures t == Sys(Disk(Without(d.index, i), d.blobs), true, Some(0),
                     map[0 := Removing(Orphans(d, i).value), 1 := WantsCopy(root, claims)])
  {
    run, t := DeletePlanned(u, d, tag, i, root, claims);
    RunStep(u, true, Sys(d, true, None, map[]), run, t, Trim(0));
    run, t := run + [Trim(0)], Next(u, t, Trim(0));
    assert t.procs == map[0 := Removing(Orphans(d, i).value), 1 := WantsCopy(root, claims)];
  }

  lemma OldOrphans()
    ensures FindTag(OneImage().disk.index, "a") == 0 && Orphans(OneImage().disk, 0) == Some({1, 5, 9})
  {
    var d := OneImage().disk;
    assert d.index[0] == OLD_IMAGE && Without(d.index, 0) == [];
    assert LayerDigests([LAYER_DESC]) == {9};
    assert Collect(d.blobs, OLD_IMAGE, {}) == Some({} + {1} + {5} + {9});
    assert {} + {1} + {5} + {9} == {1, 5, 9} && {1, 5, 9} - {} == {1, 5, 9};
  }

  /** That start comes about lawfully, from a layout nobody is working on. */
  lemma MidDeleteComesAbout() returns (run: seq<Act>)
    ensures IsRun(SHARED, true, OneImage(), run, MidDelete())
  {
    ClaimsAre();
    OldOrphans();
    var t;
    run, t := DeleteTrimmed(SHARED, OneImage().disk, "a", 0, NEW_IMAGE, NEW_CLAIMS);
    assert Without([OLD_IMAGE], 0) == [];
  }

  lemma UnlockedStart() returns (run: seq<Act>, t: Sys)
    ensures IsRun(SHARED, false, OneImage(), run, t)
    ensures t.disk == MidDelete().disk
    ensures ProcOf(t, 0) == Removing({1, 5, 9}) && ProcOf(t, 1) == Copying(NEW_IMAGE, NEW_CLAIMS, {})
  {
    run := MidDeleteComesAbout();
    LockedIsRun(SHARED, OneImage(), run, MidDelete());
    RunStep(SHARED, false, OneImage(), run, MidDelete(), Lock(1));
    run, t := run + [Lock(1)], Next(SHARED, MidDelete(), Lock(1));
  }

  lemma LeafHasNoChildren(d: Digest)
    requires d == 5 || d == 9
    ensures d in SHARED.content && d in NEW_CLAIMS && Readable(SHARED.content, As(NEW_CLAIMS[d], d))
    ensures CopyChildren(SHARED, As(NEW_CLAIMS[d], d)) == []
  {
  }

  lemma UnlockedLeaves() returns (run: seq<Act>, t: Sys)
    ensures IsRun(SHARED, false, OneImage(), run, t)
    ensures t.disk == MidDelete().disk
    ensures ProcOf(t, 0) == Removing({1, 5, 9}) && ProcOf(t, 1) == Copying(NEW_IMAGE, NEW_CLAIMS, {5, 9})
  {
    run, t := UnlockedStart();
    LeafHasNoChildren(5);
    LeafHasNoChildren(9);
    RunStep(SHARED, false, OneImage(), run, t, Land(1, 5));
    run, t := run + [Land(1, 5)], Next(SHARED, t, Land(1, 5));
    RunStep(SHARED, false, OneImage(), run, t, Land(1, 9));
    run, t := run + [Land(1, 9)], Next(SHARED, t, Land(1, 9));
    assert {} + {5} + {9} == {5, 9};
  }

  lemma UnlockedManifest() returns (run: seq<Act>, t: Sys)
    ensures IsRun(SHARED, false, OneImage(), run, t)
    ensures t.disk == Disk([], SHARED.content)
    ensures ProcOf(t, 0) == Removing({1, 5, 9}) && ProcOf(t, 1) == Copying(NEW_IMAGE, NEW_CLAIMS, {5, 9, 2})
  {
    run, t := UnlockedLeaves();
    ManifestNeedsLeaves();
    OnlyManifestMissing(SHARED.content, 2);
    RunStep(SHARED, false, OneImage(), run, t, Land(1, 2));
    run, t := run + [Land(1, 2)], Next(SHARED, t, Land(1, 2));
    assert {5, 9} + {2} == {5, 9, 2};
  }

  lemma OnlyManifestMissing(content: Blobs, d: Digest)
    requires d in content
    ensures d !in content - {d} && (content - {d})[d := content[d]] == content
  {
  }

  lemma ManifestNeedsLeaves()
    ensures Readable(SHARED.content, As(NEW_CLAIMS[2], 2))
    ensures CopyChildren(SHARED, As(NEW_CLAIMS[2], 2)) == [CONFIG_DESC, LAYER_DESC]
  {
  }

  /** The copy of image 2 up to its tag, the lock ignored: shared blobs are found in place. */
  lemma UnlockedCopy() returns (run: seq<Act>, t: Sys)
    ensures IsRun(SHARED, false, OneImage(), run, t)
    ensures t.disk == Disk([], SHARED.content)
    ensures ProcOf(t, 0) == Removing({1, 5, 9}) && ProcOf(t, 1) == Tagging(NEW_IMAGE, [])
  {
    run, t := UnlockedManifest();
    RunStep(SHARED, false, OneImage(), run, t, ReadForTag(1));
    run, t := run + [ReadForTag(1)], Next(SHARED, t, ReadForTag(1));
  }

  lemma UnlockedTag() returns (run: seq<Act>, t: Sys)
    ensures IsRun(SHARED, false, OneImage(), run, t)
    ensures t.disk == Disk([NEW_IMAGE], SHARED.content) && ProcOf(t, 0) == Removing({1, 5, 9})
  {
    run, t := UnlockedCopy();
    RunStep(SHARED, false, OneImage(), run, t, WriteTag(1));
    run, t := run + [WriteTag(1)], Next(SHARED, t, WriteTag(1));
    assert t.disk.index == [NEW_IMAGE];
  }

  /** Without the lock, a delete pulls a shared layer out from under a copy that relied on
      finding it: from a sound layout nobody is working on, the layout ends up tagging an image whose
      layer is gone. */
  lemma UnlockedLosesLayer()
    ensures exists run, t :: IsRun(SHARED, false, OneImage(), run, t) && !Complete(t.disk)
  {
    var run, t := UnlockedTag();
    RunStep(SHARED, false, OneImage(), run, t, Remove(0, 9));
    run, t := run + [Remove(0, 9)], Next(SHARED, t, Remove(0, 9));
    assert t.disk.index[0] == NEW_IMAGE;
    LayerIsMissed(t.disk);
  }

  lemma LayerIsMissed(d: Disk)
    requires NEW_IMAGE in d.index && 2 in d.blobs && d.blobs[2] == SHARED.content[2] && 9 !in d.blobs
    ensures !Complete(d)
  {
    LeadsToSelf(d.blobs, NEW_IMAGE);
    assert Children(d.blobs, NEW_IMAGE)[1] == Leaf(LAYER_DESC);
    LeadsToStep(d.blobs, NEW_IMAGE, NEW_IMAGE, Leaf(LAYER_DESC));
  }

  /** The same start is lawful: with the lock no run from it loses anything, neither blobs nor index writes. */
  lemma LockedStartIsSafe(run: seq<Act>, t: Sys)
    requires IsRun(SHARED, true, OneImage(), run, t)
    ensures Complete(t.disk) && EditsOnly(SHARED, OneImage(), run)
  {
    SharedIsTyped();
    OneImageIsSound();
    QuietStart(SHARED, OneImage().disk, true);
    LockKeepsComplete(SHARED, OneImage(), run, t);
    SettledLosesNoWrite(SHARED, OneImage(), run, t);
  }

  lemma SharedIsTyped()
    ensures Typed(SHARED)
  {
  }

  lemma OneImageIsSound()
    ensures Sound(SHARED, OneImage().disk)
  {
    var d := OneImage().disk;
    assert d.index[0] == OLD_IMAGE;
    var known := {OLD_IMAGE, Leaf(CONFIG_DESC), Leaf(LAYER_DESC)};
    forall up, down | up in known && down in Children(d.blobs, up) ensures down in known {
      OldChildren(d.blobs, up, down);
    }
    forall b | LeadsTo(d.blobs, OLD_IMAGE, b) ensures b.digest in d.blobs && Readable(d.blobs, b) {
      var p :| DescPath(d.blobs, p, OLD_IMAGE, b);
      StaysKnown(d.blobs, known, p, 0);
    }
  }

  lemma OldChildren(blobs: Blobs, up: Descriptor, down: Descriptor)
    requires blobs == SHARED.content - {2} && down in Children(blobs, up)
    requires up == OLD_IMAGE || up == Leaf(CONFIG_DESC) || up == Leaf(LAYER_DESC)
    ensures down == Leaf(CONFIG_DESC) || down == Leaf(LAYER_DESC)
  {
    assert up == OLD_IMAGE;
    var i :| 0 <= i < |Children(blobs, up)| && Children(blobs, up)[i] == down;
  }

  // ---------- a layout that is just being created ----------

  /** Nothing is there yet. */
  function NoLayout(): Sys {
    Sys(Disk([], map[]), false, None, map[])
  }

  lemma BothFindNone() returns (run: seq<Act>, t: Sys)
    ensures IsRun(SHARED, true, NoLayout(), run, t)
    ensures t == NoLayout().(procs := map[0 := Creating(NEW_IMAGE, NEW_CLAIMS), 1 := Creating(OLD_IMAGE, OLD_CLAIMS)])
  {
    ClaimsAre();
    var s := NoLayout();
    run, t := [StartCopy(0, NEW_IMAGE, NEW_CLAIMS)], Next(SHARED, s, StartCopy(0, NEW_IMAGE, NEW_CLAIMS));
    assert run[1..] == [];
    RunStep(SHARED, true, s, run, t, StartCopy(1, OLD_IMAGE, OLD_CLAIMS));
    run, t := run + [StartCopy(1, OLD_IMAGE, OLD_CLAIMS)], Next(SHARED, t, StartCopy(1, OLD_IMAGE, OLD_CLAIMS));
    assert t.procs == map[0 := Creating(NEW_IMAGE, NEW_CLAIMS), 1 := Creating(OLD_IMAGE, OLD_CLAIMS)];
  }

  lemma FirstCreates() returns (run: seq<Act>, t: Sys)
    ensures IsRun(SHARED, true, NoLayout(), run, t)
    ensures t.disk == Disk([], map[]) && t.holder == Some(0)
    ensures ProcOf(t, 0) == Copying(NEW_IMAGE, NEW_CLAIMS, {}) && ProcOf(t, 1) == Creating(OLD_IMAGE, OLD_CLAIMS)
  {
    run, t := BothFindNone();
    RunStep(SHARED, true, NoLayout(), run, t, Mark(0));
    run, t := run + [Mark(0)], Next(SHARED, t, Mark(0));
    RunStep(SHARED, true, NoLayout(), run, t, WriteEmpty(0));
    run, t := run + [WriteEmpty(0)], Next(SHARED, t, WriteEmpty(0));
    RunStep(SHARED, true, NoLayout(), run, t, Lock(0));
    run, t := run + [Lock(0)], Next(SHARED, t, Lock(0));
  }

  lemma FirstLands() returns (run: seq<Act>, t: Sys)
    ensures IsRun(SHARED, true, NoLayout(), run, t)
    ensures t.disk.index == [] && t.holder == Some(0)
    ensures ProcOf(t, 0) == Copying(NEW_IMAGE, NEW_CLAIMS, {5, 9}) && ProcOf(t, 1) == Creating(OLD_IMAGE, OLD_CLAIMS)
  {
    run, t := FirstCreates();
    LeafHasNoChildren(5);
    LeafHasNoChildren(9);
    RunStep(SHARED, true, NoLayout(), run, t, Land(0, 5));
    run, t := run + [Land(0, 5)], Next(SHARED, t, Land(0, 5));
    RunStep(SHARED, true, NoLayout(), run, t, Land(0, 9));
    run, t := run + [Land(0, 9)], Next(SHARED, t, Land(0, 9));
    assert {} + {5} + {9} == {5, 9};
  }

  lemma FirstManifest() returns (run: seq<Act>, t: Sys)
    ensures IsRun(SHARED, true, NoLayout(), run, t)
    ensures t.disk.index == [] && t.holder == Some(0)
    ensures ProcOf(t, 0) == Copying(NEW_IMAGE, NEW_CLAIMS, {5, 9, 2}) && ProcOf(t, 1) == Creating(OLD_IMAGE, OLD_CLAIMS)
  {
    run, t := FirstLands();
    ManifestNeedsLeaves();
    RunStep(SHARED, true, NoLayout(), run, t, Land(0, 2));
    run, t := run + [Land(0, 2)], Next(SHARED, t, Land(0, 2));
    assert {5, 9} + {2} == {5, 9, 2};
  }

  lemma FirstTags() returns (run: seq<Act>, t: Sys)
    ensures IsRun(SHARED, true, NoLayout(), run, t)
    ensures t.disk.index == [NEW_IMAGE] && ProcOf(t, 0) == Idle && ProcOf(t, 1) == Creating(OLD_IMAGE, OLD_CLAIMS)
  {
    run, t := FirstManifest();
    RunStep(SHARED, true, NoLayout(), run, t, ReadForTag(0));
    run, t := run + [ReadForTag(0)], Next(SHARED, t, ReadForTag(0));
    RunStep(SHARED, true, NoLayout(), run, t, WriteTag(0));
    run, t := run + [WriteTag(0)], Next(SHARED, t, WriteTag(0));
    assert t.disk.index == [NEW_IMAGE];
  }

  /** Two copies that both find no layout: the first succeeds and has tagged its image; then the second writes
      its empty index, lock or no lock, and the tag is gone. */
  lemma CreatorErasesTag() returns (run: seq<Act>, t: Sys, after: Sys)
    ensures IsRun(SHARED, true, NoLayout(), run, t) && t.disk.index == [NEW_IMAGE] && ProcOf(t, 0) == Idle
    ensures IsRun(SHARED, true, t, [Mark(1), WriteEmpty(1)], after) && after.disk.index == []
  {
    run, t := FirstTags();
    var marked := Next(SHARED, t, Mark(1));
    after := Next(SHARED, marked, WriteEmpty(1));
    assert [Mark(1), WriteEmpty(1)][1..] == [WriteEmpty(1)] && [WriteEmpty(1)][1..] == [];
    assert IsRun(SHARED, true, marked, [WriteEmpty(1)], after);
  }
}
