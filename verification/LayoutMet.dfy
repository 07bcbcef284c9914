/** What delete's collector takes in: it looks into a document only as what it met the digest as
    first (pkg/registry/oci-layout/delete.go). */
module LayoutMet {
  import opened Wrappers
  import opened Graph
  import opened LayoutStore

  // ---------- what each digest is first met as ----------

  /** The kind of media the collector distinguishes. */
  function KindOf(m: Media): Media {
    if IsDoc(m) then m else Other
  }

  type Met = map<Digest, Media>

  const NOTHING: Met := map[]

  /** Nothing noted is forgotten or changed. */
  ghost predicate Keeps(met: Met, out: Met) {
    forall d | d in met :: d in out && out[d] == met[d]
  }

  /** Leaves noted, where they were not met before. */
  ghost function Marked(met: Met, leaves: set<Digest>): (out: Met)
    ensures out.Keys == met.Keys + leaves
    ensures forall d | d in out :: out[d] == if d in met then met[d] else Other
  {
    (map d | d in leaves :: Other) + met
  }

  /** collectBlobs again, noting what every digest was first met as, and going on where a document
      cannot be read. */
  ghost function Meet(blobs: Blobs, desc: Descriptor, met: Met): (out: Met)
    ensures desc.digest in out && Keeps(met, out)
    decreases |blobs.Keys - met.Keys|, 0, 0
  {
    if desc.digest in met then met
    else
      var now := met[desc.digest := KindOf(desc.media)];
      var doc := ReadDoc(blobs, desc.digest);
      assert now.Keys == met.Keys + {desc.digest};
      if !IsDoc(desc.media) || doc.None? then now
      else if desc.media.Index? then
        UnseenShrinks(blobs, met.Keys, desc.digest);
        MeetAll(blobs, doc.value.members, now)
      else Marked(now, {doc.value.config.digest} + LayerDigests(doc.value.layers))
  }

  ghost function MeetAll(blobs: Blobs, ds: seq<Descriptor>, met: Met): (out: Met)
    ensures LayerDigests(ds) <= out.Keys && Keeps(met, out)
    decreases |blobs.Keys - met.Keys|, 1, |ds|
  {
    if ds == [] then met
    else
      var first := Meet(blobs, ds[0], met);
      CardinalityMonotone(blobs.Keys - first.Keys, blobs.Keys - met.Keys);
      assert ds == [ds[0]] + ds[1..];
      MeetAll(blobs, ds[1..], first)
  }

  /** What each digest below desc is first met as. */
  ghost function FirstMet(blobs: Blobs, desc: Descriptor): Met {
    Meet(blobs, desc, NOTHING)
  }

  // ---------- the collector is a walk along what was first met ----------

  /** Every document newly met could be read as what it was met as. */
  ghost predicate AllRead(blobs: Blobs, before: Met, after: Met) {
    forall d | d in after && d !in before && IsDoc(after[d]) :: ReadDoc(blobs, d).Some?
  }

  ghost predicate Agrees(blobs: Blobs, before: Met, after: Met, all: Option<set<Digest>>) {
    (all.Some? <==> AllRead(blobs, before, after)) && (all.Some? ==> after.Keys == all.value)
  }

  /** Noting changes nothing: what is met is what is collected, as long as everything can be read. */
  lemma {:induction false} MeetIsCollect(blobs: Blobs, desc: Descriptor, met: Met)
    ensures Agrees(blobs, met, Meet(blobs, desc, met), Collect(blobs, desc, met.Keys))
    decreases |blobs.Keys - met.Keys|, 0, 1
  {
    if desc.digest !in met {
      if desc.media.Index? && ReadDoc(blobs, desc.digest).Some? {
        IndexMet(blobs, desc, met);
        MeetAllIsCollectAll(blobs, ReadDoc(blobs, desc.digest).value.members, met[desc.digest := Index]);
        MeetIndexIsCollect(blobs, desc, met);
      } else {
        MeetLeavesIsCollect(blobs, desc, met);
      }
    }
  }

  /** An index newly met: all its members are met after it, with fewer digests unmet. */
  lemma IndexMet(blobs: Blobs, desc: Descriptor, met: Met)
    requires desc.media.Index? && desc.digest !in met && ReadDoc(blobs, desc.digest).Some?
    ensures Meet(blobs, desc, met) == MeetAll(blobs, ReadDoc(blobs, desc.digest).value.members, met[desc.digest := Index])
    ensures |blobs.Keys - met[desc.digest := Index].Keys| < |blobs.Keys - met.Keys|
  {
    UnseenShrinks(blobs, met.Keys, desc.digest);
    assert met[desc.digest := Index].Keys == met.Keys + {desc.digest};
  }

  lemma MeetIndexIsCollect(blobs: Blobs, desc: Descriptor, met: Met)
    requires desc.digest !in met && desc.media.Index? && ReadDoc(blobs, desc.digest).Some?
    requires var members, now := ReadDoc(blobs, desc.digest).value.members, met[desc.digest := Index];
      Agrees(blobs, now, MeetAll(blobs, members, now), CollectAll(blobs, members, now.Keys))
    ensures Agrees(blobs, met, Meet(blobs, desc, met), Collect(blobs, desc, met.Keys))
  {
    var members, now := ReadDoc(blobs, desc.digest).value.members, met[desc.digest := Index];
    assert now.Keys == met.Keys + {desc.digest};
    IndexMet(blobs, desc, met);
    CollectIndex(blobs, desc, met.Keys);
    AgreesWith(blobs, desc, met, MeetAll(blobs, members, now), CollectAll(blobs, members, now.Keys));
  }

  lemma CollectIndex(blobs: Blobs, desc: Descriptor, seen: set<Digest>)
    requires desc.digest !in seen && desc.media.Index? && ReadDoc(blobs, desc.digest).Some?
    ensures Collect(blobs, desc, seen) == CollectAll(blobs, ReadDoc(blobs, desc.digest).value.members, seen + {desc.digest})
  {
  }

  lemma AgreesWith(blobs: Blobs, desc: Descriptor, met: Met, out: Met, all: Option<set<Digest>>)
    requires desc.digest !in met && ReadDoc(blobs, desc.digest).Some? && Agrees(blobs, met[desc.digest := Index], out, all)
    ensures Agrees(blobs, met, out, all)
  {
  }

  lemma MeetLeavesIsCollect(blobs: Blobs, desc: Descriptor, met: Met)
    requires desc.digest !in met && (desc.media.Index? ==> ReadDoc(blobs, desc.digest).None?)
    ensures Agrees(blobs, met, Meet(blobs, desc, met), Collect(blobs, desc, met.Keys))
  {
    var out := Meet(blobs, desc, met);
    assert out[desc.digest] == KindOf(desc.media);
    forall d | d in out && d !in met && d != desc.digest ensures out[d] == Other {}
  }

  lemma {:induction false} MeetAllIsCollectAll(blobs: Blobs, ds: seq<Descriptor>, met: Met)
    ensures Agrees(blobs, met, MeetAll(blobs, ds, met), CollectAll(blobs, ds, met.Keys))
    decreases |blobs.Keys - met.Keys|, 1, |ds|
  {
    if ds != [] {
      var first := Meet(blobs, ds[0], met);
      MeetIsCollect(blobs, ds[0], met);
      CardinalityMonotone(blobs.Keys - first.Keys, blobs.Keys - met.Keys);
      MeetAllIsCollectAll(blobs, ds[1..], first);
      AllReadParts(blobs, met, first, MeetAll(blobs, ds[1..], first));
    }
  }

  lemma AllReadParts(blobs: Blobs, before: Met, middle: Met, after: Met)
    requires Keeps(before, middle) && Keeps(middle, after)
    ensures AllRead(blobs, before, after) <==> AllRead(blobs, before, middle) && AllRead(blobs, middle, after)
  {
  }

  // ---------- what is looked into ----------

  /** A document, met first as the document it is referred to as. */
  predicate LookedInto(met: Met, b: Descriptor) {
    IsDoc(b.media) && b.digest in met && met[b.digest] == b.media
  }

  /** A path the collector goes: it looks into everything on it but the last. */
  ghost predicate TakenPath(blobs: Blobs, met: Met, p: seq<Descriptor>) {
    IsDescPath(blobs, p) && forall i | 0 <= i < |p| - 1 :: LookedInto(met, p[i])
  }

  ghost predicate TakenAs(blobs: Blobs, met: Met, desc: Descriptor, b: Descriptor) {
    exists p :: TakenPath(blobs, met, p) && p[0] == desc && p[|p| - 1] == b
  }

  /** What the collector comes to from desc. */
  ghost predicate Taken(blobs: Blobs, desc: Descriptor, x: Digest) {
    exists b :: TakenAs(blobs, FirstMet(blobs, desc), desc, b) && b.digest == x
  }

  /** What was newly met as what it is has its references met too. */
  ghost predicate Done(blobs: Blobs, before: Met, after: Met) {
    forall b: Descriptor | b.digest in after && b.digest !in before && after[b.digest] == KindOf(b.media) ::
      LayerDigests(Children(blobs, b)) <= after.Keys
  }

  lemma SameChildren(blobs: Blobs, a: Descriptor, b: Descriptor)
    requires a.digest == b.digest && SameKind(a.media, b.media)
    ensures Children(blobs, a) == Children(blobs, b)
  {
  }

  lemma {:induction false} MeetDone(blobs: Blobs, desc: Descriptor, met: Met)
    ensures Done(blobs, met, Meet(blobs, desc, met))
    decreases |blobs.Keys - met.Keys|, 0, 0
  {
    if desc.digest !in met {
      if desc.media.Index? && ReadDoc(blobs, desc.digest).Some? {
        var members, now := ReadDoc(blobs, desc.digest).value.members, met[desc.digest := Index];
        IndexMet(blobs, desc, met);
        MeetAllDone(blobs, members, now);
        DoneWith(blobs, desc, met, now, MeetAll(blobs, members, now));
      } else {
        LeavesDone(blobs, desc, met);
      }
    }
  }

  /** An index is done once its members are. */
  lemma DoneWith(blobs: Blobs, desc: Descriptor, met: Met, now: Met, out: Met)
    requires desc.media.Index? && ReadDoc(blobs, desc.digest).Some? && now == met[desc.digest := Index]
    requires Done(blobs, now, out) && LayerDigests(Children(blobs, desc)) <= out.Keys
    requires desc.digest in out && out[desc.digest] == Index
    ensures Done(blobs, met, out)
  {
    forall b: Descriptor | b.digest in out && b.digest !in met && out[b.digest] == KindOf(b.media)
      ensures LayerDigests(Children(blobs, b)) <= out.Keys
    {
      if b.digest == desc.digest { SameChildren(blobs, b, desc); }
    }
  }

  /** A manifest or a leaf is done at once: what else it brings in are leaves. */
  lemma LeavesDone(blobs: Blobs, desc: Descriptor, met: Met)
    requires desc.digest !in met && (desc.media.Index? ==> ReadDoc(blobs, desc.digest).None?)
    ensures Done(blobs, met, Meet(blobs, desc, met))
  {
    var out := Meet(blobs, desc, met);
    if desc.media.Manifest? && ReadDoc(blobs, desc.digest).Some? { ManifestChildDigests(blobs, desc); }
    forall b: Descriptor | b.digest in out && b.digest !in met && out[b.digest] == KindOf(b.media)
      ensures LayerDigests(Children(blobs, b)) <= out.Keys
    {
      if b.digest == desc.digest {
        SameChildren(blobs, b, desc);
      } else {
        assert !IsDoc(b.media) && Children(blobs, b) == [];
      }
    }
  }

  lemma {:induction false} MeetAllDone(blobs: Blobs, ds: seq<Descriptor>, met: Met)
    ensures Done(blobs, met, MeetAll(blobs, ds, met))
    decreases |blobs.Keys - met.Keys|, 1, |ds|
  {
    if ds != [] {
      var first := Meet(blobs, ds[0], met);
      MeetDone(blobs, ds[0], met);
      CardinalityMonotone(blobs.Keys - first.Keys, blobs.Keys - met.Keys);
      MeetAllDone(blobs, ds[1..], first);
      DoneParts(blobs, met, first, MeetAll(blobs, ds[1..], first));
    }
  }

  lemma DoneParts(blobs: Blobs, before: Met, middle: Met, after: Met)
    requires Keeps(before, middle) && Keeps(middle, after) && Done(blobs, before, middle) && Done(blobs, middle, after)
    ensures Done(blobs, before, after)
  {
  }

  lemma {:induction false} TakenIsMet(blobs: Blobs, desc: Descriptor, p: seq<Descriptor>)
    requires TakenPath(blobs, FirstMet(blobs, desc), p) && p[0].digest in FirstMet(blobs, desc)
    ensures p[|p| - 1].digest in FirstMet(blobs, desc)
    decreases |p|
  {
    if |p| > 1 {
      MeetDone(blobs, desc, NOTHING);
      assert LookedInto(FirstMet(blobs, desc), p[0]);
      assert p[1] in Children(blobs, p[0]);
      assert p[1].digest in LayerDigests(Children(blobs, p[0]));
      TakenIsMet(blobs, desc, p[1..]);
    }
  }

  /** A path from a to something with digest x, met as final says. */
  ghost predicate Leading(blobs: Blobs, final: Met, p: seq<Descriptor>, a: Descriptor, x: Digest) {
    TakenPath(blobs, final, p) && p[0] == a && p[|p| - 1].digest == x &&
    x in final && KindOf(p[|p| - 1].media) == final[x]
  }

  /** Whatever is newly met is met along such a path, and as what its last reference says. */
  lemma {:induction false} MetByPath(blobs: Blobs, desc: Descriptor, met: Met, final: Met, x: Digest)
    returns (p: seq<Descriptor>)
    requires Keeps(Meet(blobs, desc, met), final) && x in Meet(blobs, desc, met) && x !in met
    ensures Leading(blobs, final, p, desc, x)
    decreases |blobs.Keys - met.Keys|, 0, 0
  {
    if x == desc.digest {
      assert Meet(blobs, desc, met)[x] == KindOf(desc.media);
      p := [desc];
    } else if desc.media.Index? {
      var members, now := ReadDoc(blobs, desc.digest).value.members, met[desc.digest := Index];
      IndexMet(blobs, desc, met);
      var q := AllMetByPath(blobs, members, now, final, x);
      p := OneMore(blobs, final, desc, q, x);
    } else {
      var c := LeafMet(blobs, desc, met, x);
      p := OneMore(blobs, final, desc, [c], x);
    }
  }

  lemma OneMore(blobs: Blobs, final: Met, desc: Descriptor, q: seq<Descriptor>, x: Digest) returns (p: seq<Descriptor>)
    requires q != [] && Leading(blobs, final, q, q[0], x) && q[0] in Children(blobs, desc) && LookedInto(final, desc)
    ensures Leading(blobs, final, p, desc, x)
  {
    p := [desc] + q;
    forall i | 0 <= i < |p| - 1 ensures p[i + 1] in Children(blobs, p[i]) && LookedInto(final, p[i]) {
      if i > 0 { assert q[i] in Children(blobs, q[i - 1]) && LookedInto(final, q[i - 1]); }
    }
  }

  lemma LeafMet(blobs: Blobs, desc: Descriptor, met: Met, x: Digest) returns (c: Descriptor)
    requires !desc.media.Index? && x in Meet(blobs, desc, met) && x !in met && x != desc.digest
    ensures c in Children(blobs, desc) && c.digest == x && KindOf(c.media) == Meet(blobs, desc, met)[x]
    ensures LookedInto(Meet(blobs, desc, met), desc)
  {
    ManifestChildDigests(blobs, desc);
    assert x in LayerDigests(Children(blobs, desc));
    c :| c in Children(blobs, desc) && c.digest == x;
    ChildIsLeaf(blobs, desc, c);
  }

  lemma ChildIsLeaf(blobs: Blobs, desc: Descriptor, c: Descriptor)
    requires !desc.media.Index? && c in Children(blobs, desc)
    ensures KindOf(c.media) == Other
  {
    var i :| 0 <= i < |Children(blobs, desc)| && Children(blobs, desc)[i] == c;
  }

  lemma {:induction false} AllMetByPath(blobs: Blobs, ds: seq<Descriptor>, met: Met, final: Met, x: Digest)
    returns (p: seq<Descriptor>)
    requires Keeps(MeetAll(blobs, ds, met), final) && x in MeetAll(blobs, ds, met) && x !in met
    ensures p != [] && p[0] in ds && Leading(blobs, final, p, p[0], x)
    decreases |blobs.Keys - met.Keys|, 1, |ds|
  {
    var first := Meet(blobs, ds[0], met);
    if x in first {
      p := MetByPath(blobs, ds[0], met, final, x);
    } else {
      CardinalityMonotone(blobs.Keys - first.Keys, blobs.Keys - met.Keys);
      p := AllMetByPath(blobs, ds[1..], first, final, x);
    }
  }

  /** What is met is what is taken. */
  lemma MetIsTaken(blobs: Blobs, desc: Descriptor, x: Digest)
    ensures x in FirstMet(blobs, desc) <==> Taken(blobs, desc, x)
  {
    var met := FirstMet(blobs, desc);
    if x in met {
      var p := MetByPath(blobs, desc, NOTHING, met, x);
      assert TakenAs(blobs, met, desc, p[|p| - 1]);
    }
    if Taken(blobs, desc, x) {
      var b :| TakenAs(blobs, met, desc, b) && b.digest == x;
      var p :| TakenPath(blobs, met, p) && p[0] == desc && p[|p| - 1] == b;
      TakenIsMet(blobs, desc, p);
    }
  }

  // ---------- the collector, on any store ----------

  /** What the collector returns: whatever desc leads to along documents that were met first as what
      they are referred to as. */
  lemma CollectIs(blobs: Blobs, desc: Descriptor, x: Digest)
    requires Collect(blobs, desc, {}).Some?
    ensures x in Collect(blobs, desc, {}).value <==> Taken(blobs, desc, x)
  {
    MeetIsCollect(blobs, desc, NOTHING);
    assert NOTHING.Keys == {};
    MetIsTaken(blobs, desc, x);
  }

  /** It fails exactly when a document it looks into cannot be read. */
  lemma CollectFailsIff(blobs: Blobs, desc: Descriptor)
    ensures Collect(blobs, desc, {}).None? <==>
      exists b :: TakenAs(blobs, FirstMet(blobs, desc), desc, b) && LookedInto(FirstMet(blobs, desc), b) && !Readable(blobs, b)
  {
    var met := FirstMet(blobs, desc);
    MeetIsCollect(blobs, desc, NOTHING);
    assert NOTHING.Keys == {};
    if Collect(blobs, desc, {}).None? {
      var d :| d in met && IsDoc(met[d]) && ReadDoc(blobs, d).None?;
      var p := MetByPath(blobs, desc, NOTHING, met, d);
      assert TakenAs(blobs, met, desc, p[|p| - 1]) && LookedInto(met, p[|p| - 1]);
    }
  }

  /** A document root leads to that is first met as something else: as a leaf, or as a document of the
      other kind. */
  ghost predicate Mistaken(blobs: Blobs, root: Descriptor, b: Descriptor) {
    LeadsTo(blobs, root, b) && IsDoc(b.media) && b.digest in FirstMet(blobs, root) && FirstMet(blobs, root)[b.digest] != b.media
  }

  /** No document below root is first met as something else. */
  ghost predicate InOrder(blobs: Blobs, root: Descriptor) {
    forall b :: !Mistaken(blobs, root, b)
  }

  lemma TakenIsReached(blobs: Blobs, desc: Descriptor, x: Digest)
    requires Taken(blobs, desc, x)
    ensures Reach(blobs, desc, x)
  {
    var met := FirstMet(blobs, desc);
    var b :| TakenAs(blobs, met, desc, b) && b.digest == x;
    var p :| TakenPath(blobs, met, p) && p[0] == desc && p[|p| - 1] == b;
    assert DescPath(blobs, p, desc, b);
    assert LeadsTo(blobs, desc, b);
  }

  /** The first on a path that is not looked into. */
  function Lapse(met: Met, p: seq<Descriptor>): (i: nat)
    ensures i <= |p| && (i < |p| ==> !LookedInto(met, p[i]))
    ensures forall j | 0 <= j < i :: LookedInto(met, p[j])
  {
    if p == [] || !LookedInto(met, p[0]) then 0 else
      assert forall j | 0 < j < |p| :: p[j] == p[1..][j - 1];
      1 + Lapse(met, p[1..])
  }

  /** Where a path leaves what is taken, it passes something mistaken. */
  lemma LeavesAtMistaken(blobs: Blobs, desc: Descriptor, p: seq<Descriptor>) returns (i: nat)
    requires IsDescPath(blobs, p) && p[0] == desc && !Taken(blobs, desc, p[|p| - 1].digest)
    ensures i < |p| - 1 && Mistaken(blobs, desc, p[i])
  {
    i := Lapse(FirstMet(blobs, desc), p);
    if i >= |p| - 1 { PrefixTaken(blobs, desc, p, |p| - 1); }
    PrefixTaken(blobs, desc, p, i);
    assert p[i + 1] in Children(blobs, p[i]);
  }

  /** So whatever is not taken lies below something mistaken. */
  lemma UntakenBelow(blobs: Blobs, desc: Descriptor, y: Descriptor) returns (b: Descriptor)
    requires LeadsTo(blobs, desc, y) && !Taken(blobs, desc, y.digest)
    ensures Mistaken(blobs, desc, b) && LeadsTo(blobs, b, y)
  {
    var p :| DescPath(blobs, p, desc, y);
    var k := LeavesAtMistaken(blobs, desc, p);
    b := p[k];
    LeadsToSelf(blobs, b);
    PathFollowed(blobs, b, p, k);
  }

  lemma PrefixTaken(blobs: Blobs, desc: Descriptor, p: seq<Descriptor>, k: nat)
    requires IsDescPath(blobs, p) && p[0] == desc && k < |p|
    requires forall j | 0 <= j < k :: LookedInto(FirstMet(blobs, desc), p[j])
    ensures LeadsTo(blobs, desc, p[k]) && Taken(blobs, desc, p[k].digest) && p[k].digest in FirstMet(blobs, desc)
  {
    var q := p[..k + 1];
    PathPrefix(blobs, p, k + 1);
    assert DescPath(blobs, q, desc, p[k]);
    assert TakenPath(blobs, FirstMet(blobs, desc), q);
    assert TakenAs(blobs, FirstMet(blobs, desc), desc, q[k]);
    MetIsTaken(blobs, desc, p[k].digest);
  }

  /** All that desc leads to is taken exactly when all that the mistaken documents refer to is. */
  lemma TakenIsAllIff(blobs: Blobs, desc: Descriptor)
    ensures (forall x | Reach(blobs, desc, x) :: Taken(blobs, desc, x)) <==>
      forall b, c | Mistaken(blobs, desc, b) && c in Children(blobs, b) :: Taken(blobs, desc, c.digest)
  {
    if forall x | Reach(blobs, desc, x) :: Taken(blobs, desc, x) {
      forall b, c | Mistaken(blobs, desc, b) && c in Children(blobs, b) ensures Taken(blobs, desc, c.digest) {
        LeadsToStep(blobs, desc, b, c);
        assert Reach(blobs, desc, c.digest);
      }
    }
    if forall b, c | Mistaken(blobs, desc, b) && c in Children(blobs, b) :: Taken(blobs, desc, c.digest) {
      forall x | Reach(blobs, desc, x) ensures Taken(blobs, desc, x) {
        var b :| LeadsTo(blobs, desc, b) && b.digest == x;
        var p :| DescPath(blobs, p, desc, b);
        AllTaken(blobs, desc, p);
      }
    }
  }

  lemma {:induction false} AllTaken(blobs: Blobs, desc: Descriptor, p: seq<Descriptor>)
    requires IsDescPath(blobs, p) && p[0] == desc
    requires forall b, c | Mistaken(blobs, desc, b) && c in Children(blobs, b) :: Taken(blobs, desc, c.digest)
    ensures Taken(blobs, desc, p[|p| - 1].digest)
    decreases |p|
  {
    if |p| == 1 {
      MetIsTaken(blobs, desc, desc.digest);
    } else {
      var q, c := p[..|p| - 1], p[|p| - 1];
      PathSplits(blobs, p);
      AllTaken(blobs, desc, q);
      var b := q[|q| - 1];
      assert LeadsTo(blobs, desc, b) by { assert DescPath(blobs, q, desc, b); }
      MetIsTaken(blobs, desc, b.digest);
      if !Mistaken(blobs, desc, b) {
        MeetDone(blobs, desc, NOTHING);
        assert IsDoc(b.media);
        assert c.digest in LayerDigests(Children(blobs, b));
        MetIsTaken(blobs, desc, c.digest);
      }
    }
  }

  /** The collector takes in nothing desc does not lead to, and all of it if and only if all that the
      documents it mistakes for something else refer to is taken on another way. */
  lemma CollectIsExactIff(blobs: Blobs, desc: Descriptor)
    requires Collect(blobs, desc, {}).Some?
    ensures var out := Collect(blobs, desc, {}).value;
      (forall x :: x in out <==> Reach(blobs, desc, x)) <==>
        forall b, c | Mistaken(blobs, desc, b) && c in Children(blobs, b) :: Taken(blobs, desc, c.digest)
    ensures forall x | x in Collect(blobs, desc, {}).value :: Reach(blobs, desc, x)
  {
    TakenIsAllIff(blobs, desc);
    forall x ensures x in Collect(blobs, desc, {}).value <==> Taken(blobs, desc, x) { CollectIs(blobs, desc, x); }
    forall x | Taken(blobs, desc, x) ensures Reach(blobs, desc, x) { TakenIsReached(blobs, desc, x); }
  }

  /** Where no digest is used in two ways, nothing is met as something else. */
  lemma OneUseIsInOrder(blobs: Blobs, root: Descriptor)
    requires OneUse(blobs, root)
    ensures InOrder(blobs, root)
  {
    var met := FirstMet(blobs, root);
    forall b | LeadsTo(blobs, root, b) && IsDoc(b.media) && b.digest in met ensures met[b.digest] == b.media {
      var p := MetByPath(blobs, root, NOTHING, met, b.digest);
      assert DescPath(blobs, p, root, p[|p| - 1]);
      assert LeadsTo(blobs, root, p[|p| - 1]);
    }
  }

  /** So there referencedBlobs is exact: it fails exactly when some document it leads to is unreadable, and
      otherwise returns exactly the digests reachable from its descriptor. */
  lemma ReferencedIsReachable(blobs: Blobs, desc: Descriptor)
    requires InOrder(blobs, desc)
    ensures Collect(blobs, desc, {}).Some? <==> forall b | LeadsTo(blobs, desc, b) :: Readable(blobs, b)
    ensures Collect(blobs, desc, {}).Some? ==>
      forall x :: x in Collect(blobs, desc, {}).value <==> Reach(blobs, desc, x)
  {
    var met := FirstMet(blobs, desc);
    CollectFailsIff(blobs, desc);
    if Collect(blobs, desc, {}).None? {
      var b :| TakenAs(blobs, met, desc, b) && LookedInto(met, b) && !Readable(blobs, b);
      var p :| TakenPath(blobs, met, p) && p[0] == desc && p[|p| - 1] == b;
      assert DescPath(blobs, p, desc, b);
    } else {
      CollectIsExactIff(blobs, desc);
      MeetIsCollect(blobs, desc, NOTHING);
      assert NOTHING.Keys == {};
      forall b | LeadsTo(blobs, desc, b) ensures Readable(blobs, b) {
        assert Reach(blobs, desc, b.digest);
        assert !Mistaken(blobs, desc, b);
        MetIsTaken(blobs, desc, b.digest);
        assert AllRead(blobs, NOTHING, met);
      }
    }
  }

  // ---------- why one use matters ----------

  function Plain(media: Media, d: Digest): Descriptor {
    Descriptor(media, d, 0, "")
  }

  /** Index 1 lists manifests 2 and 3, index 4 lists 3 and 2; manifest 2 also lists 3 as a layer.
      Manifest 8 is another image with the layer of 3. */
  const MIXED_STORE: Blobs := map[
    4 := File(Doc([Plain(Manifest, 3), Plain(Manifest, 2)], Plain(Other, 0), [], None)),
    1 := File(Doc([Plain(Manifest, 2), Plain(Manifest, 3)], Plain(Other, 0), [], None)),
    2 := File(Doc([], Plain(Other, 5), [Plain(Layer, 3)], None)),
    3 := File(Doc([], Plain(Other, 5), [Plain(Layer, 7)], None)),
    5 := File(Raw(0)), 7 := File(Raw(1)),
    8 := File(Doc([], Plain(Other, 5), [Plain(Layer, 7)], None))]

  lemma MixedReach()
    ensures Reach(MIXED_STORE, Plain(Index, 1), 7) && !OneUse(MIXED_STORE, Plain(Index, 1))
  {
    var s, root := MIXED_STORE, Plain(Index, 1);
    LeadsToSelf(s, root);
    LeadsToStep(s, root, root, Plain(Manifest, 2));
    LeadsToStep(s, root, root, Plain(Manifest, 3));
    assert Children(s, Plain(Manifest, 3))[1] == Leaf(Plain(Layer, 7));
    LeadsToStep(s, root, Plain(Manifest, 3), Leaf(Plain(Layer, 7)));
    assert Children(s, Plain(Manifest, 2))[1] == Leaf(Plain(Layer, 3));
    LeadsToStep(s, root, Plain(Manifest, 2), Leaf(Plain(Layer, 3)));
  }

  lemma MixedFirst()
    ensures Collect(MIXED_STORE, Plain(Manifest, 2), {1}) == Some({1, 2, 3, 5})
  {
    assert LayerDigests([Plain(Layer, 3)]) == {3} && {1} + {2} + {5} + {3} == {1, 2, 3, 5};
  }

  /** Without it the collector misses blobs: marked as a layer first, manifest 3 is then
      skipped as already seen, and its own layer 7 with it. */
  lemma MixedUseIsMissed()
    ensures Reach(MIXED_STORE, Plain(Index, 1), 7) && !OneUse(MIXED_STORE, Plain(Index, 1))
    ensures Collect(MIXED_STORE, Plain(Index, 1), {}) == Some({1, 2, 3, 5})
  {
    MixedReach();
    MixedCollect();
  }

  lemma MixedCollect()
    ensures Collect(MIXED_STORE, Plain(Index, 1), {}) == Some({1, 2, 3, 5})
  {
    MixedFirst();
    CollectPair(MIXED_STORE, Plain(Manifest, 2), Plain(Manifest, 3), {1}, {1, 2, 3, 5});
    assert {} + {1} == {1};
  }

  /** A second document that has been seen adds nothing. */
  lemma CollectPair(blobs: Blobs, a: Descriptor, b: Descriptor, seen: set<Digest>, out: set<Digest>)
    requires Collect(blobs, a, seen) == Some(out) && b.digest in out
    ensures CollectAll(blobs, [a, b], seen) == Some(out)
  {
    assert [a, b][1..] == [b] && [b][1..] == [];
    assert Collect(blobs, b, out) == Some(out);
    assert CollectAll(blobs, [b], out) == Some(out);
  }

  /** The order decides: under index 4 the same digest is met as a manifest first, and nothing is missed. */
  lemma MixedInOrder()
    ensures !OneUse(MIXED_STORE, Plain(Index, 4)) && Collect(MIXED_STORE, Plain(Index, 4), {}) == Some({2, 3, 4, 5, 7})
  {
    var s, root := MIXED_STORE, Plain(Index, 4);
    LeadsToSelf(s, root);
    LeadsToStep(s, root, root, Plain(Manifest, 3));
    LeadsToStep(s, root, root, Plain(Manifest, 2));
    assert Children(s, Plain(Manifest, 2))[1] == Leaf(Plain(Layer, 3));
    LeadsToStep(s, root, Plain(Manifest, 2), Leaf(Plain(Layer, 3)));
    MixedThird();
    MixedSecond();
    var members := [Plain(Manifest, 3), Plain(Manifest, 2)];
    assert members[1..] == [Plain(Manifest, 2)] && members[1..][1..] == [];
    assert CollectAll(s, members[1..], {3, 4, 5, 7}) == Some({2, 3, 4, 5, 7});
    assert {} + {4} == {4};
  }

  lemma MixedThird()
    ensures Collect(MIXED_STORE, Plain(Manifest, 3), {4}) == Some({3, 4, 5, 7})
  {
    assert LayerDigests([Plain(Layer, 7)]) == {7} && {4} + {3} + {5} + {7} == {3, 4, 5, 7};
  }

  lemma MixedSecond()
    ensures Collect(MIXED_STORE, Plain(Manifest, 2), {3, 4, 5, 7}) == Some({2, 3, 4, 5, 7})
  {
    assert LayerDigests([Plain(Layer, 3)]) == {3} && {3, 4, 5, 7} + {2} + {5} + {3} == {2, 3, 4, 5, 7};
  }
}
