/** Copying an image into a layout, tagging it and deleting it again: exactly when that
    leaves the layout as it was. */
module Restore {
  import opened Wrappers
  import opened Graph
  import opened LayoutStore
  import opened LayoutMet
  import opened Layouts
  import opened Sessions
  import Transfer
  import TransferInvariant
  import TransferResults

  /** A digest, as the kind of media it is. */
  function KindAs(u: Universe, d: Digest): Descriptor {
    As(u.kind(d), d)
  }

  ghost predicate IsCopyPath(u: Universe, p: seq<Descriptor>) {
    |p| > 0 && forall i | 0 <= i < |p| - 1 :: p[i + 1] in CopyChildren(u, p[i])
  }

  ghost predicate CopyPath(u: Universe, p: seq<Descriptor>, a: Descriptor, b: Descriptor) {
    IsCopyPath(u, p) && p[0] == a && p[|p| - 1] == b
  }

  /** The digests a copy of root lands. */
  ghost predicate CopyReach(u: Universe, root: Descriptor, x: Digest) {
    exists p, b :: CopyPath(u, p, root, b) && b.digest == x
  }

  /** The layout after a successful copy and tag of root. */
  ghost predicate CopiedAndTagged(u: Universe, d: Disk, root: Descriptor, d': Disk) {
    && d'.index == TagIndex(d.index, root)
    && (forall x :: x in d'.blobs <==> x in d.blobs || CopyReach(u, root, x))
    && Within(u, d'.blobs)
  }

  /** Copied root: everything the copy reaches is in the universe and readable. */
  ghost predicate Copyable(u: Universe, root: Descriptor) {
    forall p, b | CopyPath(u, p, root, b) :: b.digest in u.content && Readable(u.content, b)
  }

  lemma {:induction false} DeletePathIsCopied(u: Universe, blobs: Blobs, root: Descriptor, p: seq<Descriptor>, q: seq<Descriptor>)
    requires Within(u, blobs) && IsDescPath(blobs, p) && CopyPath(u, q, root, p[0])
    ensures exists r, b :: CopyPath(u, r, root, b) && (p[|p| - 1] == b || p[|p| - 1] == Leaf(b))
    decreases |p|
  {
    forall i | 0 <= i < |p| - 1 ensures Children(blobs, p[i]) != [] {
      assert p[i + 1] in Children(blobs, p[i]);
    }
    if |p| > 1 {
      assert p[1] in Children(blobs, p[0]);
      assert ReadDoc(blobs, p[0].digest) == ReadDoc(u.content, p[0].digest);
      var kids := CopyChildren(u, p[0]);
      if p[1] in kids {
        assert CopyPath(u, q + [p[1]], root, p[1]);
        DeletePathIsCopied(u, blobs, root, p[1..], q + [p[1]]);
      } else {
        var c := LeafOfChild(u, blobs, p[0], p[1]);
        assert CopyPath(u, q + [c], root, c);
      }
    }
  }

  /** A child that only delete knows in this form is a config or layer the copy follows, taken as a leaf. */
  lemma LeafOfChild(u: Universe, blobs: Blobs, up: Descriptor, down: Descriptor) returns (c: Descriptor)
    requires down in Children(blobs, up) && down !in CopyChildren(u, up)
    requires ReadDoc(blobs, up.digest) == ReadDoc(u.content, up.digest)
    ensures c in CopyChildren(u, up) && down == Leaf(c) && Children(blobs, down) == []
  {
    var i :| 0 <= i < |Children(blobs, up)| && Children(blobs, up)[i] == down;
    c := CopyChildren(u, up)[i];
    assert i == 0 || c == ReadDoc(u.content, up.digest).value.layers[i - 1];
  }

  /** What delete reaches from the copied root, the copy landed. */
  lemma DeleteReachIsCopied(u: Universe, blobs: Blobs, root: Descriptor, b: Descriptor)
    requires Within(u, blobs) && LeadsTo(blobs, root, b)
    ensures exists p, c :: CopyPath(u, p, root, c) && (b == c || b == Leaf(c))
  {
    var p :| DescPath(blobs, p, root, b);
    assert CopyPath(u, [root], root, root);
    DeletePathIsCopied(u, blobs, root, p, [root]);
  }

  lemma CopiedIsSound(u: Universe, d: Disk, root: Descriptor, d': Disk)
    requires Typed(u) && Sound(u, d) && Copyable(u, root) && SameKind(root.media, u.kind(root.digest))
    requires CopiedAndTagged(u, d, root, d')
    ensures Sound(u, d')
    ensures forall e, x | e in d.index :: Reach(d'.blobs, e, x) <==> Reach(d.blobs, e, x)
  {
    forall b | LeadsTo(d'.blobs, root, b) ensures b.digest in d'.blobs && Readable(d'.blobs, b) {
      DeleteReachIsCopied(u, d'.blobs, root, b);
      var p, c :| CopyPath(u, p, root, c) && (b == c || b == Leaf(c));
      assert CopyReach(u, root, c.digest);
    }
    forall e | e in d.index ensures Intact(d'.blobs, e) {
      assert Intact(d.blobs, e);
      AddingKeepsIntact(d.blobs, d'.blobs, e);
    }
    forall e | e in d'.index ensures e in d.index || e == root {}
    forall e, x | e in d.index ensures Reach(d'.blobs, e, x) <==> Reach(d.blobs, e, x) {
      assert Intact(d.blobs, e);
      AddingKeepsReach(d.blobs, d'.blobs, e, x);
    }
  }

  lemma AddingKeepsReach(before: Blobs, after: Blobs, e: Descriptor, x: Digest)
    requires Intact(before, e)
    requires forall y | y in before :: y in after && after[y] == before[y]
    ensures Reach(after, e, x) <==> Reach(before, e, x)
  {
    if Reach(after, e, x) {
      var b :| LeadsTo(after, e, b) && b.digest == x;
      var p :| DescPath(after, p, e, b);
      AddedPath(before, after, e, p);
      assert DescPath(before, p, e, b) && LeadsTo(before, e, b);
    }
    if Reach(before, e, x) {
      var b :| LeadsTo(before, e, b) && b.digest == x;
      var p :| DescPath(before, p, e, b);
      SamePaths(after, before, p);
      assert DescPath(after, p, e, b) && LeadsTo(after, e, b);
    }
  }

  /** Tag and digest are new to the index. */
  predicate New(index: seq<Descriptor>, root: Descriptor) {
    forall e | e in index :: e.tag != root.tag && e.digest != root.digest
  }

  /** Tagging and deleting again gives the index back exactly when tag and digest were new: otherwise
      an entry has been overwritten, or another image's is taken out. */
  lemma IndexRestoredIff(index: seq<Descriptor>, root: Descriptor)
    ensures var after := TagIndex(index, root);
      FindTag(after, root.tag) < |after| && (Without(after, FindTag(after, root.tag)) == index <==> New(index, root))
  {
    TagResolves(index, root);
    var after := TagIndex(index, root);
    var i := FindTag(after, root.tag);
    if New(index, root) {
      NewTagIsLast(index, root);
    } else if FindDigest(index, root.digest) == |index| {
      assert after == index + [root] && i < |index|;
      assert Without(after, i)[|index| - 1] == root;
      assert index[|index| - 1].digest != root.digest;
    }
  }

  /** Copy, tag, delete. Index and blobs are restored if and only if tag and digest were new, everything
      the copy added is delete-reachable from the image (so: no subject, nothing below a config or layer)
      and every blob of the image that was there before was in use by some entry. */
  lemma RestoredIff(u: Universe, d: Disk, root: Descriptor, d': Disk)
    requires Typed(u) && Sound(u, d) && Copyable(u, root) && SameKind(root.media, u.kind(root.digest))
    requires CopiedAndTagged(u, d, root, d')
    ensures var i := FindTag(d'.index, root.tag);
      i < |d'.index| && Orphans(d', i).Some? &&
      (Without(d'.index, i) == d.index && d'.blobs - Orphans(d', i).value == d.blobs <==>
        && New(d.index, root)
        && (forall x | CopyReach(u, root, x) && x !in d.blobs :: Reach(d'.blobs, root, x))
        && (forall x | x in d.blobs && Reach(d'.blobs, root, x) :: Live(d.index, d.blobs, x)))
  {
    IndexRestoredIff(d.index, root);
    CopiedIsSound(u, d, root, d');
    SoundInOrder(u, d');
    OrphansAreUnshared(d', FindTag(d'.index, root.tag));
    if New(d.index, root) { NewRestoredIff(u, d, root, d'); }
  }

  lemma NewRestoredIff(u: Universe, d: Disk, root: Descriptor, d': Disk)
    requires Typed(u) && Sound(u, d) && Copyable(u, root) && SameKind(root.media, u.kind(root.digest))
    requires CopiedAndTagged(u, d, root, d') && New(d.index, root)
    ensures var i := |d.index|;
      FindTag(d'.index, root.tag) == i && d'.index == d.index + [root] && Orphans(d', i).Some? &&
      (d'.blobs - Orphans(d', i).value == d.blobs <==>
        && (forall x | CopyReach(u, root, x) && x !in d.blobs :: Reach(d'.blobs, root, x))
        && (forall x | x in d.blobs && Reach(d'.blobs, root, x) :: Live(d.index, d.blobs, x)))
  {
    CopiedIsSound(u, d, root, d');
    NewTagIsLast(d.index, root);
    var i := |d.index|;
    SoundInOrder(u, d');
    OrphansAreUnshared(d', i);
    var o := Orphans(d', i).value;
    assert Without(d'.index, i) == d.index;
    forall x ensures Live(d.index, d'.blobs, x) <==> Live(d.index, d.blobs, x) {
      SameLive(d.index, d.blobs, d'.blobs, x);
    }
    LiveIsPresent(d);
    RestoredBlobs(u, d, root, d', o);
  }

  lemma NewTagIsLast(index: seq<Descriptor>, root: Descriptor)
    requires New(index, root)
    ensures TagIndex(index, root) == index + [root] && FindTag(index + [root], root.tag) == |index|
  {
    assert FindDigest(index, root.digest) == |index|;
    assert forall j | 0 <= j < |index| :: (index + [root])[j] == index[j];
    FindTagIs(index + [root], root.tag, |index|);
  }

  lemma SameLive(index: seq<Descriptor>, a: Blobs, b: Blobs, x: Digest)
    requires forall e | e in index :: Reach(b, e, x) <==> Reach(a, e, x)
    ensures Live(index, b, x) <==> Live(index, a, x)
  {
  }

  lemma LiveIsPresent(d: Disk)
    requires Complete(d)
    ensures forall x | Live(d.index, d.blobs, x) :: x in d.blobs
  {
    forall x | Live(d.index, d.blobs, x) ensures x in d.blobs {
      var e :| e in d.index && Reach(d.blobs, e, x);
    }
  }

  lemma RestoredBlobs(u: Universe, d: Disk, root: Descriptor, d': Disk, o: set<Digest>)
    requires Sound(u, d) && CopiedAndTagged(u, d, root, d')
    requires forall x :: x in o <==> Reach(d'.blobs, root, x) && !Live(d.index, d.blobs, x)
    requires forall x | Live(d.index, d.blobs, x) :: x in d.blobs
    ensures d'.blobs - o == d.blobs <==>
      && (forall x | CopyReach(u, root, x) && x !in d.blobs :: Reach(d'.blobs, root, x))
      && (forall x | x in d.blobs && Reach(d'.blobs, root, x) :: Live(d.index, d.blobs, x))
  {
    if d'.blobs - o == d.blobs {
      forall x | CopyReach(u, root, x) && x !in d.blobs ensures Reach(d'.blobs, root, x) {
        assert x in d'.blobs && x !in d'.blobs - o;
      }
      forall x | x in d.blobs && Reach(d'.blobs, root, x) ensures Live(d.index, d.blobs, x) {
        assert x in d'.blobs - o;
      }
    }
  }

  /** No subject, and configs and layers that are no documents, anywhere in the image. */
  ghost predicate PlainImage(u: Universe, root: Descriptor) {
    forall p, b | CopyPath(u, p, root, b) && b.media.Manifest? && ReadDoc(u.content, b.digest).Some? ::
      var doc := ReadDoc(u.content, b.digest).value;
      doc.subject.None? && !IsDoc(doc.config.media) && forall l | l in doc.layers :: !IsDoc(l.media)
  }

  lemma {:induction false} PlainPathIsDeleted(u: Universe, blobs: Blobs, root: Descriptor, p: seq<Descriptor>)
    requires PlainImage(u, root) && Within(u, blobs) && IsCopyPath(u, p) && p[0] == root
    requires forall x | CopyReach(u, root, x) :: x in blobs
    ensures Reach(blobs, root, p[|p| - 1].digest)
    ensures IsDoc(p[|p| - 1].media) ==> LeadsTo(blobs, root, p[|p| - 1])
    decreases |p|
  {
    if |p| == 1 {
      LeadsToSelf(blobs, root);
    } else {
      var q := p[..|p| - 1];
      var up, down := q[|q| - 1], p[|p| - 1];
      forall i | 0 <= i < |q| - 1 ensures q[i + 1] in CopyChildren(u, q[i]) {
        assert p[i + 1] in CopyChildren(u, p[i]);
      }
      PlainPathIsDeleted(u, blobs, root, q);
      assert CopyPath(u, q, root, up) && CopyReach(u, root, up.digest);
      assert down in CopyChildren(u, up);
      assert ReadDoc(blobs, up.digest) == ReadDoc(u.content, up.digest);
      PlainChild(u, blobs, root, up, down);
    }
  }

  lemma PlainChild(u: Universe, blobs: Blobs, root: Descriptor, up: Descriptor, down: Descriptor)
    requires LeadsTo(blobs, root, up) && down in CopyChildren(u, up)
    requires ReadDoc(blobs, up.digest) == ReadDoc(u.content, up.digest)
    requires up.media.Manifest? ==>
      var doc := ReadDoc(u.content, up.digest).value;
      doc.subject.None? && !IsDoc(doc.config.media) && forall l | l in doc.layers :: !IsDoc(l.media)
    ensures Reach(blobs, root, down.digest)
    ensures IsDoc(down.media) ==> LeadsTo(blobs, root, down)
  {
    if up.media.Index? {
      LeadsToStep(blobs, root, up, down);
    } else {
      PlainManifestChild(u, blobs, up, down);
      LeadsToStep(blobs, root, up, Leaf(down));
    }
  }

  lemma PlainManifestChild(u: Universe, blobs: Blobs, up: Descriptor, down: Descriptor)
    requires !up.media.Index? && down in CopyChildren(u, up)
    requires ReadDoc(blobs, up.digest) == ReadDoc(u.content, up.digest)
    requires up.media.Manifest? ==>
      var doc := ReadDoc(u.content, up.digest).value;
      doc.subject.None? && !IsDoc(doc.config.media) && forall l | l in doc.layers :: !IsDoc(l.media)
    ensures Leaf(down) in Children(blobs, up) && !IsDoc(down.media)
  {
    var doc := ReadDoc(blobs, up.digest).value;
    var kids := Children(blobs, up);
    assert kids[0] == Leaf(doc.config);
    if down != doc.config {
      var i :| 0 <= i < |doc.layers| && doc.layers[i] == down;
      assert kids[i + 1] == Leaf(doc.layers[i]);
    }
  }

  /** So for a plain image: the layout is restored if and only if tag and digest were new and no blob of
      the image was there without being in use. */
  lemma PlainImageRestoredIff(u: Universe, d: Disk, root: Descriptor, d': Disk)
    requires Typed(u) && Sound(u, d) && Copyable(u, root) && SameKind(root.media, u.kind(root.digest))
    requires CopiedAndTagged(u, d, root, d') && PlainImage(u, root)
    ensures var i := FindTag(d'.index, root.tag);
      i < |d'.index| && Orphans(d', i).Some? &&
      (Without(d'.index, i) == d.index && d'.blobs - Orphans(d', i).value == d.blobs <==>
        New(d.index, root) && forall x | x in d.blobs && CopyReach(u, root, x) :: Live(d.index, d.blobs, x))
  {
    RestoredIff(u, d, root, d');
    forall x ensures CopyReach(u, root, x) <==> Reach(d'.blobs, root, x) {
      if CopyReach(u, root, x) {
        var p, b :| CopyPath(u, p, root, b) && b.digest == x;
        PlainPathIsDeleted(u, d'.blobs, root, p);
      }
      if Reach(d'.blobs, root, x) {
        var b :| LeadsTo(d'.blobs, root, b) && b.digest == x;
        DeleteReachIsCopied(u, d'.blobs, root, b);
      }
    }
  }

  // ---------- the copy is a run of the transfer ----------

  /** The references a copy follows: a document's, taken as the kind of media its digest is of. */
  function RefsOf(u: Universe): Refs {
    map d | d in u.content && IsDoc(u.kind(d)) && ReadDoc(u.content, d).Some? :: DigestsOf(CopyChildren(u, KindAs(u, d)))
  }

  function DigestsOf(ds: seq<Descriptor>): seq<Digest> {
    seq(|ds|, i requires 0 <= i < |ds| => ds[i].digest)
  }

  /** Every reference a copy follows names its digest's own kind of media. */
  ghost predicate KindsAgree(u: Universe) {
    forall d, c | ReadDoc(u.content, d).Some? && c in CopyChildren(u, KindAs(u, d)) :: SameKind(c.media, u.kind(c.digest))
  }

  lemma SameCopyChildren(u: Universe, b: Descriptor)
    requires SameKind(b.media, u.kind(b.digest))
    ensures Out(RefsOf(u), b.digest) == DigestsOf(CopyChildren(u, b))
  {
    assert CopyChildren(u, b) == CopyChildren(u, KindAs(u, b.digest));
  }

  lemma ChildIsEdge(u: Universe, up: Descriptor, down: Descriptor)
    requires KindsAgree(u) && SameKind(up.media, u.kind(up.digest)) && down in CopyChildren(u, up)
    ensures down.digest in Out(RefsOf(u), up.digest) && SameKind(down.media, u.kind(down.digest))
  {
    SameCopyChildren(u, up);
    assert CopyChildren(u, up) == CopyChildren(u, KindAs(u, up.digest));
    var i :| 0 <= i < |CopyChildren(u, up)| && CopyChildren(u, up)[i] == down;
    assert DigestsOf(CopyChildren(u, up))[i] == down.digest;
  }

  lemma EdgeIsChild(u: Universe, up: Descriptor, x: Digest) returns (c: Descriptor)
    requires KindsAgree(u) && SameKind(up.media, u.kind(up.digest)) && x in Out(RefsOf(u), up.digest)
    ensures c in CopyChildren(u, up) && c.digest == x && SameKind(c.media, u.kind(c.digest))
  {
    SameCopyChildren(u, up);
    var kids := CopyChildren(u, up);
    var i :| 0 <= i < |kids| && DigestsOf(kids)[i] == x;
    c := kids[i];
    ChildIsEdge(u, up, c);
  }

  lemma {:induction false} PathIsRun(u: Universe, root: Descriptor, p: seq<Descriptor>)
    requires KindsAgree(u) && SameKind(root.media, u.kind(root.digest)) && IsCopyPath(u, p) && p[0] == root
    ensures Reaches(RefsOf(u), root.digest, p[|p| - 1].digest)
    ensures SameKind(p[|p| - 1].media, u.kind(p[|p| - 1].digest))
    decreases |p|
  {
    if |p| == 1 {
      ReachesSelf(RefsOf(u), root.digest);
    } else {
      var q := p[..|p| - 1];
      var up, down := q[|q| - 1], p[|p| - 1];
      forall i | 0 <= i < |q| - 1 ensures q[i + 1] in CopyChildren(u, q[i]) {
        assert p[i + 1] in CopyChildren(u, p[i]);
      }
      PathIsRun(u, root, q);
      ChildIsEdge(u, up, down);
      ReachesStep(RefsOf(u), root.digest, up.digest, down.digest);
    }
  }

  lemma {:induction false} RunIsPath(u: Universe, root: Descriptor, p: seq<Digest>) returns (q: seq<Descriptor>)
    requires KindsAgree(u) && SameKind(root.media, u.kind(root.digest)) && IsPath(RefsOf(u), p) && p[0] == root.digest
    ensures IsCopyPath(u, q) && q[0] == root && q[|q| - 1].digest == p[|p| - 1]
    ensures SameKind(q[|q| - 1].media, u.kind(q[|q| - 1].digest))
    decreases |p|
  {
    if |p| == 1 {
      q := [root];
    } else {
      var r := p[..|p| - 1];
      forall i | 0 <= i < |r| - 1 ensures r[i + 1] in Out(RefsOf(u), r[i]) { assert p[i + 1] in Out(RefsOf(u), p[i]); }
      var up := RunIsPath(u, root, r);
      var last := up[|up| - 1];
      assert p[|p| - 1] in Out(RefsOf(u), p[|p| - 2]);
      var c := EdgeIsChild(u, last, p[|p| - 1]);
      q := up + [c];
    }
  }

  /** What a copy reaches is what a run over those references reaches. */
  lemma CopyReachIsReaches(u: Universe, root: Descriptor, x: Digest)
    requires KindsAgree(u) && SameKind(root.media, u.kind(root.digest))
    ensures CopyReach(u, root, x) <==> Reaches(RefsOf(u), root.digest, x)
  {
    if CopyReach(u, root, x) {
      var p, b :| CopyPath(u, p, root, b) && b.digest == x;
      PathIsRun(u, root, p);
    }
    if Reaches(RefsOf(u), root.digest, x) {
      var p :| PathFromTo(RefsOf(u), p, root.digest, x);
      var q := RunIsPath(u, root, p);
      assert CopyPath(u, q, root, q[|q| - 1]);
    }
  }

  /** What a disk holds once a run has ended in s and the root has been tagged. */
  ghost function Tagged(u: Universe, d: Disk, root: Descriptor, s: Transfer.State): Disk {
    Disk(TagIndex(d.index, root), map x | x in s.dst && x in u.content :: u.content[x])
  }

  /** A successful run of the copy, at any limit and under any interleaving, and the tag after it, is
      the copy and tag of those theorems. */
  lemma RunIsCopiedAndTagged(u: Universe, d: Disk, root: Descriptor, c: Transfer.Config, s: Transfer.State)
    requires KindsAgree(u) && SameKind(root.media, u.kind(root.digest)) && Copyable(u, root) && Within(u, d.blobs)
    requires c.refs == RefsOf(u) && c.root == root.digest && c.before == d.blobs.Keys && TransferResults.Succeeds(c, s)
    ensures CopiedAndTagged(u, d, root, Tagged(u, d, root, s))
  {
    TransferResults.SuccessIsClosure(c, s);
    var d' := Tagged(u, d, root, s);
    forall x ensures x in d'.blobs <==> x in d.blobs || CopyReach(u, root, x) {
      CopyReachIsReaches(u, root, x);
    }
  }

  /** A successful copy, tag and delete: the layout is as it was if and only if tag and digest were new,
      all that was added is delete-reachable from the image and none of the image lay there unused. */
  lemma RunRestoredIff(u: Universe, d: Disk, root: Descriptor, c: Transfer.Config, s: Transfer.State)
    requires Typed(u) && KindsAgree(u) && Sound(u, d) && Copyable(u, root) && SameKind(root.media, u.kind(root.digest))
    requires c.refs == RefsOf(u) && c.root == root.digest && c.before == d.blobs.Keys && TransferResults.Succeeds(c, s)
    ensures var d' := Tagged(u, d, root, s);
      var i := FindTag(d'.index, root.tag);
      i < |d'.index| && Orphans(d', i).Some? &&
      (Without(d'.index, i) == d.index && d'.blobs - Orphans(d', i).value == d.blobs <==>
        && New(d.index, root)
        && (forall x | x in s.dst && x !in d.blobs :: Reach(d'.blobs, root, x))
        && (forall x | x in d.blobs && Reach(d'.blobs, root, x) :: Live(d.index, d.blobs, x)))
  {
    RunIsCopiedAndTagged(u, d, root, c, s);
    RestoredIff(u, d, root, Tagged(u, d, root, s));
    TransferResults.SuccessIsClosure(c, s);
    forall x ensures CopyReach(u, root, x) <==> Reaches(RefsOf(u), root.digest, x) { CopyReachIsReaches(u, root, x); }
  }

  // ---------- the copy of a session is a run of the transfer ----------

  function Lands(p: nat, log: seq<Digest>): seq<Act> {
    seq(|log|, i requires 0 <= i < |log| => Land(p, log[i]))
  }

  /** What a run has pushed could be read, with its references landed before it. */
  lemma PushedLands(u: Universe, root: Descriptor, c: Transfer.Config, s: Transfer.State, i: nat, landed: set<Digest>)
    requires KindsAgree(u) && SameKind(root.media, u.kind(root.digest)) && Copyable(u, root)
    requires c.refs == RefsOf(u) && c.root == root.digest && Transfer.Reachable(c, s)
    requires i < |s.log| && forall x | x in s.log[..i] :: x in landed
    ensures s.log[i] in KindClaims(u, root) && Readable(u.content, KindAs(u, s.log[i]))
    ensures forall k | k in CopyChildren(u, KindAs(u, s.log[i])) :: k.digest in landed
  {
    var d := s.log[i];
    TransferInvariant.ReachableInv(c, s);
    assert TransferInvariant.LogAt(c, s, i);
    CopyReachIsReaches(u, root, d);
    var p, b :| CopyPath(u, p, root, b) && b.digest == d;
    PathIsRun(u, root, p);
    SameCopyChildren(u, KindAs(u, d));
    var kids := CopyChildren(u, KindAs(u, d));
    forall k | k in kids ensures k.digest in landed {
      var j :| 0 <= j < |kids| && kids[j] == k;
      assert DigestsOf(kids)[j] == k.digest;
      assert k.digest in Out(c.refs, d);
    }
  }

  /** A copy of root takes everything for what it is. */
  ghost function KindClaims(u: Universe, root: Descriptor): Claims {
    map d | d in u.content && CopyReach(u, root, d) :: u.kind(d)
  }

  lemma KindsClaimed(u: Universe, root: Descriptor)
    requires KindsAgree(u) && SameKind(root.media, u.kind(root.digest)) && Copyable(u, root)
    ensures Claimed(u, root, KindClaims(u, root))
  {
    var claims := KindClaims(u, root);
    assert CopyPath(u, [root], root, root);
    forall d | d in claims && d != root.digest ensures ClaimedBelow(u, claims, d) {
      var p, b :| CopyPath(u, p, root, b) && b.digest == d;
      var q, up := p[..|p| - 1], p[|p| - 2];
      assert b in CopyChildren(u, up);
      forall i | 0 <= i < |q| - 1 ensures q[i + 1] in CopyChildren(u, q[i]) { assert p[i + 1] in CopyChildren(u, p[i]); }
      assert CopyPath(u, q, root, up);
      PathIsRun(u, root, q);
      ChildIsEdge(u, up, b);
      assert up.digest in claims && As(claims[up.digest], up.digest) == KindAs(u, up.digest);
      assert b in CopyChildren(u, As(claims[up.digest], up.digest));
    }
  }

  /** So the pushes of any attempt, in their order, are steps a copying process can take: children first. */
  lemma LogLands(u: Universe, locking: bool, root: Descriptor, c: Transfer.Config, s: Transfer.State, m: Sys, p: nat)
    returns (t: Sys)
    requires KindsAgree(u) && SameKind(root.media, u.kind(root.digest)) && Copyable(u, root)
    requires c.refs == RefsOf(u) && c.root == root.digest && Transfer.Reachable(c, s)
    requires ProcOf(m, p) == Copying(root, KindClaims(u, root), {})
    ensures Claimed(u, root, KindClaims(u, root)) && IsRun(u, locking, m, Lands(p, s.log), t)
    ensures ProcOf(t, p) == Copying(root, KindClaims(u, root), TransferInvariant.Elems(s.log))
    ensures t.disk.index == m.disk.index && t.disk.blobs.Keys == m.disk.blobs.Keys + TransferInvariant.Elems(s.log)
  {
    KindsClaimed(u, root);
    forall i | 0 <= i < |s.log| ensures Pushable(u, KindClaims(u, root), s.log, i) {
      PushedLands(u, root, c, s, i, TransferInvariant.Elems(s.log[..i]));
    }
    t := AllLand(u, locking, root, KindClaims(u, root), s.log, m, p, |s.log|);
    assert s.log[..|s.log|] == s.log;
  }

  ghost predicate Pushable(u: Universe, claims: Claims, log: seq<Digest>, i: nat)
    requires i < |log|
  {
    && log[i] in u.content && log[i] in claims && Readable(u.content, As(claims[log[i]], log[i]))
    && forall k | k in CopyChildren(u, As(claims[log[i]], log[i])) :: k.digest in TransferInvariant.Elems(log[..i])
  }

  lemma {:induction false} AllLand(u: Universe, locking: bool, root: Descriptor, claims: Claims, log: seq<Digest>,
                                   m: Sys, p: nat, n: nat) returns (t: Sys)
    requires n <= |log| && forall i | 0 <= i < n :: Pushable(u, claims, log, i)
    requires ProcOf(m, p) == Copying(root, claims, {})
    ensures IsRun(u, locking, m, Lands(p, log[..n]), t)
    ensures ProcOf(t, p) == Copying(root, claims, TransferInvariant.Elems(log[..n]))
    ensures t.disk.index == m.disk.index && t.disk.blobs.Keys == m.disk.blobs.Keys + TransferInvariant.Elems(log[..n])
  {
    if n == 0 {
      t := m;
      assert Lands(p, log[..0]) == [];
    } else {
      var before := AllLand(u, locking, root, claims, log, m, p, n - 1);
      assert Pushable(u, claims, log, n - 1);
      t := LandOne(u, locking, m, Lands(p, log[..n - 1]), before, p, log[n - 1]);
      LandsNext(p, log, n);
    }
  }

  lemma LandOne(u: Universe, locking: bool, m: Sys, run: seq<Act>, before: Sys, p: nat, d: Digest) returns (t: Sys)
    requires IsRun(u, locking, m, run, before) && Guard(u, locking, before, Land(p, d))
    ensures IsRun(u, locking, m, run + [Land(p, d)], t)
    ensures ProcOf(t, p) == Copying(ProcOf(before, p).root, ProcOf(before, p).claims, ProcOf(before, p).landed + {d})
    ensures t.disk.index == before.disk.index && t.disk.blobs.Keys == before.disk.blobs.Keys + {d}
  {
    RunStep(u, locking, m, run, before, Land(p, d));
    t := Next(u, before, Land(p, d));
  }

  lemma LandsNext(p: nat, log: seq<Digest>, n: nat)
    requires 0 < n <= |log|
    ensures Lands(p, log[..n]) == Lands(p, log[..n - 1]) + [Land(p, log[n - 1])]
    ensures TransferInvariant.Elems(log[..n]) == TransferInvariant.Elems(log[..n - 1]) + {log[n - 1]}
  {
    assert log[..n] == log[..n - 1] + [log[n - 1]];
  }
}
