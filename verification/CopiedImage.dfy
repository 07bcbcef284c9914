/** What a copy lands of an image, and in what order, said of its documents; and what a delete
    of it then leaves behind. */
module CopiedImages {
  import opened Wrappers
  import opened Graph
  import opened LayoutStore
  import opened LayoutMet
  import opened Layouts
  import opened Sessions
  import opened Restore
  import Transfer
  import TransferResults
  import TransferOrder
  import TransferRoot

  /** All a document names, in the order a copy follows it: an index its members; a manifest its config, its
      layers and, if it has one, its subject. */
  ghost predicate Names(kind: Media, doc: Content, ks: seq<Digest>)
    requires doc.Doc?
  {
    match kind
    case Index => |ks| == |doc.members| && forall i | 0 <= i < |ks| :: ks[i] == doc.members[i].digest
    case Manifest =>
      && |ks| == 1 + |doc.layers| + (if doc.subject.Some? then 1 else 0) && ks[0] == doc.config.digest
      && (forall i | 0 <= i < |doc.layers| :: ks[1 + i] == doc.layers[i].digest)
      && (doc.subject.Some? ==> ks[1 + |doc.layers|] == doc.subject.value.digest)
    case _ => ks == []
  }

  lemma NamesAreFollowed(u: Universe, d: Digest, ks: seq<Digest>)
    requires ReadDoc(u.content, d).Some? && Names(u.kind(d), ReadDoc(u.content, d).value, ks)
    ensures Out(RefsOf(u), d) == ks
  {
    if IsDoc(u.kind(d)) {
      var kids := CopyChildren(u, KindAs(u, d));
      ChildrenNamed(u, d, ks, kids);
      assert Out(RefsOf(u), d) == DigestsOf(kids);
    }
  }

  lemma ChildrenNamed(u: Universe, d: Digest, ks: seq<Digest>, kids: seq<Descriptor>)
    requires ReadDoc(u.content, d).Some? && Names(u.kind(d), ReadDoc(u.content, d).value, ks)
    requires IsDoc(u.kind(d)) && kids == CopyChildren(u, KindAs(u, d))
    ensures |kids| == |ks| && forall i | 0 <= i < |ks| :: kids[i].digest == ks[i]
  {
    var doc := ReadDoc(u.content, d).value;
    if u.kind(d).Manifest? {
      forall i | 0 <= i < |ks| ensures |kids| == |ks| && kids[i].digest == ks[i] {
        if 0 < i <= |doc.layers| { assert kids[i] == doc.layers[i - 1] && ks[1 + (i - 1)] == doc.layers[i - 1].digest; }
      }
    }
  }

  // ---------- all that is named ----------

  /** A successful copy has landed all that a document it landed names. */
  lemma LandsAllNamed(u: Universe, c: Transfer.Config, s: Transfer.State, d: Digest, ks: seq<Digest>, k: Digest)
    requires c.refs == RefsOf(u) && TransferResults.Succeeds(c, s) && d in s.log
    requires ReadDoc(u.content, d).Some? && Names(u.kind(d), ReadDoc(u.content, d).value, ks) && k in ks
    ensures k in s.log && k in s.dst
  {
    TransferResults.SuccessIsClosure(c, s);
    NamesAreFollowed(u, d, ks);
    ReachesStep(c.refs, c.root, d, k);
  }

  /** And nothing else: what it pushed besides the root is named by some document it pushed. */
  lemma LandsOnlyNamed(u: Universe, c: Transfer.Config, s: Transfer.State, x: Digest) returns (d: Digest, ks: seq<Digest>)
    requires c.refs == RefsOf(u) && TransferResults.Succeeds(c, s) && x in s.log && x != c.root
    ensures d in s.log && ReadDoc(u.content, d).Some? && Names(u.kind(d), ReadDoc(u.content, d).value, ks) && x in ks
  {
    TransferResults.SuccessIsClosure(c, s);
    var p :| PathFromTo(c.refs, p, c.root, x);
    d := p[|p| - 2];
    ks := Out(c.refs, d);
    assert x in ks && PathFromTo(c.refs, p[..|p| - 1], c.root, d);
  }

  // ---------- in what order ----------

  /** At a limit of 1 the copy of a document is one stretch of the log after another, for what it names in its
      order, and then the document itself: a stretch is empty where that has been pushed before, and otherwise
      ends in it and holds only what it leads to. */
  lemma LandsInOrder(u: Universe, c: Transfer.Config, t: Transfer.State, d: Digest, ks: seq<Digest>)
    returns (i: nat, cuts: seq<nat>)
    requires c.mode == Transfer.KeyThenSlot && c.limit <= 1 && c.refs == RefsOf(u)
    requires TransferResults.Succeeds(c, t) && d in t.log
    requires ReadDoc(u.content, d).Some? && Names(u.kind(d), ReadDoc(u.content, d).value, ks)
    ensures i < |t.log| && t.log[i] == d && |cuts| == |ks| + 1 && cuts[|ks|] == i
    ensures forall j | 0 <= j < |ks| :: TransferOrder.Stretch(c.refs, t.log, cuts[j], cuts[j + 1], ks[j])
  {
    NamesAreFollowed(u, d, ks);
    i, cuts := TransferOrder.SerialStretches(c, t, d);
  }

  // ---------- an image with a subject ----------

  const IMAGE := Descriptor(Manifest, 2, 0, "a")

  /** Image 2 with config 5 and layer 9; its subject is manifest 1, with the same config and layer 7. */
  const ATTACHED: Universe := Universe(
    map[2 := File(Doc([], Plain(Other, 5), [Plain(Layer, 9)], Some(Plain(Manifest, 1)))),
        1 := File(Doc([], Plain(Other, 5), [Plain(Layer, 7)], None)),
        5 := File(Raw(0)), 7 := File(Raw(1)), 9 := File(Raw(2))],
    {IMAGE},
    d => if d == 1 || d == 2 then Manifest else Other)

  function AttachedCopy(limit: int): Transfer.Config {
    Transfer.Config(Transfer.KeyThenSlot, RefsOf(ATTACHED), 2, limit, {})
  }

  lemma AttachedRefs()
    ensures RefsOf(ATTACHED) == map[2 := [5, 9, 1], 1 := [5, 7]]
  {
    NamesAreFollowed(ATTACHED, 2, [5, 9, 1]);
    NamesAreFollowed(ATTACHED, 1, [5, 7]);
    assert RefsOf(ATTACHED).Keys == {2, 1};
  }

  lemma {:induction false} StaysWithin(g: Refs, within: set<Digest>, p: seq<Digest>, i: nat)
    requires IsPath(g, p) && i < |p| && p[i] in within
    requires forall a, b | a in within && b in Out(g, a) :: b in within
    ensures p[|p| - 1] in within
    decreases |p| - i
  {
    if i < |p| - 1 {
      assert p[i + 1] in Out(g, p[i]);
      StaysWithin(g, within, p, i + 1);
    }
  }

  lemma AttachedClosure(x: Digest)
    ensures Reaches(map[2 := [5, 9, 1], 1 := [5, 7]], 2, x) <==> x in {1, 2, 5, 7, 9}
  {
    var g: Refs := map[2 := [5, 9, 1], 1 := [5, 7]];
    ReachesSelf(g, 2);
    assert Out(g, 2)[0] == 5 && Out(g, 2)[1] == 9 && Out(g, 2)[2] == 1 && Out(g, 1)[1] == 7;
    ReachesStep(g, 2, 2, 5);
    ReachesStep(g, 2, 2, 9);
    ReachesStep(g, 2, 2, 1);
    ReachesStep(g, 2, 1, 7);
    if Reaches(g, 2, x) {
      var p :| PathFromTo(g, p, 2, x);
      StaysWithin(g, {1, 2, 5, 7, 9}, p, 0);
    }
  }

  lemma AttachedLoopFree()
    ensures LoopFree(map[2 := [5, 9, 1], 1 := [5, 7]], 2)
  {
    RankedIsLoopFree(map[2 := [5, 9, 1], 1 := [5, 7]], 2, (d: Digest) => if d == 2 then 2 else if d == 1 then 1 else 0);
  }

  lemma CanSucceed(c: Transfer.Config)
    requires c.mode == Transfer.KeyThenSlot && LoopFree(c.refs, c.root)
    ensures exists s :: TransferResults.Succeeds(c, s)
  {
    var rest, t := TransferRoot.FaultlessEnds(c, [], Transfer.Init(c));
  }

  lemma AttachedEnds(c: Transfer.Config, s: Transfer.State)
    requires c.refs == map[2 := [5, 9, 1], 1 := [5, 7]] && c.root == 2 && c.before == {} && TransferResults.Succeeds(c, s)
    ensures s.dst == {1, 2, 5, 7, 9}
  {
    TransferResults.SuccessIsClosure(c, s);
    forall x ensures x in s.dst <==> x in {1, 2, 5, 7, 9} { AttachedClosure(x); }
  }

  /** A copy of it can succeed at any limit, and always lands the subject with all it names. */
  lemma SubjectLands(limit: int)
    ensures exists s :: TransferResults.Succeeds(AttachedCopy(limit), s)
    ensures forall s | TransferResults.Succeeds(AttachedCopy(limit), s) :: s.dst == {1, 2, 5, 7, 9}
  {
    var c := AttachedCopy(limit);
    AttachedRefs();
    AttachedLoopFree();
    CanSucceed(c);
    forall s | TransferResults.Succeeds(c, s) ensures s.dst == {1, 2, 5, 7, 9} { AttachedEnds(c, s); }
  }

  /** Into an empty layout, then tagged and deleted again: the subject and its layer stay behind, and nothing
      in the index leads to them. */
  lemma SubjectStaysBehind(limit: int, s: Transfer.State)
    requires TransferResults.Succeeds(AttachedCopy(limit), s)
    ensures var d := Tagged(ATTACHED, Disk([], map[]), IMAGE, s);
      d == Disk([IMAGE], ATTACHED.content) && Orphans(d, 0) == Some({2, 5, 9}) && Without(d.index, 0) == [] &&
      (d.blobs - Orphans(d, 0).value).Keys == {1, 7}
  {
    SubjectLands(limit);
    AttachedTagged(s);
    AttachedOrphans();
  }

  lemma AttachedTagged(s: Transfer.State)
    requires s.dst == {1, 2, 5, 7, 9}
    ensures Tagged(ATTACHED, Disk([], map[]), IMAGE, s) == Disk([IMAGE], ATTACHED.content)
  {
    assert ATTACHED.content.Keys == {1, 2, 5, 7, 9};
  }

  lemma AttachedOrphans()
    ensures Orphans(Disk([IMAGE], ATTACHED.content), 0) == Some({2, 5, 9}) && Without([IMAGE], 0) == []
  {
    assert LayerDigests([Plain(Layer, 9)]) == {9};
    assert Collect(ATTACHED.content, IMAGE, {}) == Some({} + {2} + {5} + {9});
    assert {} + {2} + {5} + {9} == {2, 5, 9} && {2, 5, 9} - {} == {2, 5, 9};
  }
}
