/** What an OCI layout holds, and what delete considers reachable in it
    (pkg/registry/oci-layout/delete.go). */
module LayoutStore {
  import opened Wrappers
  import opened Graph

  // Index and Manifest stand for the OCI and the Docker media type of each; Layer for
  // the filesystem layers that unpack mode extracts.
  datatype Media = Index | Manifest | Layer | Other

  // tag is the ref.name annotation, empty when there is none.
  datatype Descriptor = Descriptor(media: Media, digest: Digest, size: nat, tag: string)

  // A decoded blob: bytes that are no JSON document, or a document's references.
  datatype Content =
    | Raw(bytes: nat)
    | Doc(members: seq<Descriptor>, config: Descriptor, layers: seq<Descriptor>, subject: Option<Descriptor>)

  // A file with its content, or the directory an unpacked layer became.
  datatype Blob = File(content: Content) | Dir

  type Blobs = map<Digest, Blob>

  function ReadDoc(blobs: Blobs, d: Digest): Option<Content> {
    if d in blobs && blobs[d].File? && blobs[d].content.Doc? then Some(blobs[d].content) else None
  }

  function Leaf(d: Descriptor): Descriptor {
    d.(media := Other)
  }

  predicate IsDoc(m: Media) {
    m.Index? || m.Manifest?
  }

  function LayerDigests(ds: seq<Descriptor>): set<Digest> {
    set d | d in ds :: d.digest
  }

  // ---------- the collector ----------

  /** collectBlobs: what has been seen once desc is done, or nothing on a read failure.
      The unseen digests of the store are the measure, so a cyclic store is no problem. */
  function Collect(blobs: Blobs, desc: Descriptor, seen: set<Digest>): (out: Option<set<Digest>>)
    ensures out.Some? ==> seen + {desc.digest} <= out.value
    decreases |blobs.Keys - seen|, 0, 0
  {
    if desc.digest in seen then Some(seen)
    else if !IsDoc(desc.media) then Some(seen + {desc.digest})
    else
      var doc := ReadDoc(blobs, desc.digest);
      if doc.None? then None
      else if desc.media.Index? then
        UnseenShrinks(blobs, seen, desc.digest);
        CollectAll(blobs, doc.value.members, seen + {desc.digest})
      else Some(seen + {desc.digest} + {doc.value.config.digest} + LayerDigests(doc.value.layers))
  }

  function CollectAll(blobs: Blobs, ds: seq<Descriptor>, seen: set<Digest>): (out: Option<set<Digest>>)
    ensures out.Some? ==> seen + LayerDigests(ds) <= out.value
    decreases |blobs.Keys - seen|, 1, |ds|
  {
    if ds == [] then Some(seen)
    else
      var first := Collect(blobs, ds[0], seen);
      if first.None? then None
      else
        CardinalityMonotone(blobs.Keys - first.value, blobs.Keys - seen);
        assert ds == [ds[0]] + ds[1..];
        CollectAll(blobs, ds[1..], first.value)
  }

  lemma UnseenShrinks(blobs: Blobs, seen: set<Digest>, d: Digest)
    requires d in blobs && d !in seen
    ensures |blobs.Keys - (seen + {d})| < |blobs.Keys - seen|
  {
    assert blobs.Keys - (seen + {d}) == (blobs.Keys - seen) - {d};
  }

  // ---------- delete's reachability ----------

  /** An index refers to its members; a manifest to its config and layers, which are
      leaves whatever they hold. The subject is not followed. */
  function Children(blobs: Blobs, d: Descriptor): seq<Descriptor> {
    var doc := ReadDoc(blobs, d.digest);
    if doc.None? then []
    else if d.media.Index? then doc.value.members
    else if d.media.Manifest? then
      [Leaf(doc.value.config)] + seq(|doc.value.layers|, i requires 0 <= i < |doc.value.layers| => Leaf(doc.value.layers[i]))
    else []
  }

  ghost predicate IsDescPath(blobs: Blobs, p: seq<Descriptor>) {
    |p| > 0 && forall i | 0 <= i < |p| - 1 :: p[i + 1] in Children(blobs, p[i])
  }

  ghost predicate DescPath(blobs: Blobs, p: seq<Descriptor>, a: Descriptor, b: Descriptor) {
    IsDescPath(blobs, p) && p[0] == a && p[|p| - 1] == b
  }

  ghost predicate LeadsTo(blobs: Blobs, a: Descriptor, b: Descriptor) {
    exists p :: DescPath(blobs, p, a, b)
  }

  /** Delete-reachable: x is the digest of something desc leads to. */
  ghost predicate Reach(blobs: Blobs, desc: Descriptor, x: Digest) {
    exists b :: LeadsTo(blobs, desc, b) && b.digest == x
  }

  predicate Readable(blobs: Blobs, d: Descriptor) {
    IsDoc(d.media) ==> ReadDoc(blobs, d.digest).Some?
  }

  predicate SameKind(a: Media, b: Media) {
    a == b || (!IsDoc(a) && !IsDoc(b))
  }

  /** No digest is used in two ways below root: as a leaf and as a document, or as an
      index and as a manifest. */
  ghost predicate OneUse(blobs: Blobs, root: Descriptor) {
    forall a, b | LeadsTo(blobs, root, a) && LeadsTo(blobs, root, b) && a.digest == b.digest :: SameKind(a.media, b.media)
  }

  lemma LeadsToSelf(blobs: Blobs, a: Descriptor)
    ensures LeadsTo(blobs, a, a)
  {
    assert DescPath(blobs, [a], a, a);
  }

  lemma LeadsToStep(blobs: Blobs, a: Descriptor, b: Descriptor, c: Descriptor)
    requires LeadsTo(blobs, a, b) && c in Children(blobs, b)
    ensures LeadsTo(blobs, a, c)
  {
    var p :| DescPath(blobs, p, a, b);
    PathExtends(blobs, p, c);
    assert DescPath(blobs, p + [c], a, c);
  }

  /** What leads to a point of a path leads to its end. */
  lemma {:induction false} PathFollowed(blobs: Blobs, a: Descriptor, p: seq<Descriptor>, k: nat)
    requires IsDescPath(blobs, p) && k < |p| && LeadsTo(blobs, a, p[k])
    ensures LeadsTo(blobs, a, p[|p| - 1])
    decreases |p| - k
  {
    if k < |p| - 1 {
      assert p[k + 1] in Children(blobs, p[k]);
      LeadsToStep(blobs, a, p[k], p[k + 1]);
      PathFollowed(blobs, a, p, k + 1);
    }
  }

  lemma PathExtends(blobs: Blobs, p: seq<Descriptor>, c: Descriptor)
    requires IsDescPath(blobs, p) && c in Children(blobs, p[|p| - 1])
    ensures IsDescPath(blobs, p + [c])
  {
    var q := p + [c];
    forall i | 0 <= i < |q| - 1 ensures q[i + 1] in Children(blobs, q[i]) {
      assert q[i] == p[i];
      if i < |p| - 1 { assert q[i + 1] == p[i + 1] && p[i + 1] in Children(blobs, p[i]); }
    }
  }

  /** A path is its beginning and one more reference. */
  lemma PathSplits(blobs: Blobs, p: seq<Descriptor>)
    requires IsDescPath(blobs, p) && |p| > 1
    ensures var q := p[..|p| - 1];
      IsDescPath(blobs, q) && p == q + [p[|p| - 1]] && p[|p| - 1] in Children(blobs, q[|q| - 1])
  {
    var i := |p| - 2;
    assert p[i + 1] in Children(blobs, p[i]);
    PathPrefix(blobs, p, |p| - 1);
    SplitLast(p);
  }

  /** What is known with all it refers to is all that is led to. */
  lemma {:induction false} StaysKnown(blobs: Blobs, known: set<Descriptor>, p: seq<Descriptor>, i: nat)
    requires IsDescPath(blobs, p) && i < |p| && p[i] in known
    requires forall a, b | a in known && b in Children(blobs, a) :: b in known
    ensures p[|p| - 1] in known
    decreases |p| - i
  {
    if i < |p| - 1 {
      assert p[i + 1] in Children(blobs, p[i]);
      StaysKnown(blobs, known, p, i + 1);
    }
  }

  lemma SplitLast<T>(p: seq<T>)
    requires p != []
    ensures p == p[..|p| - 1] + [p[|p| - 1]]
  {
  }

  lemma PathPrefix(blobs: Blobs, p: seq<Descriptor>, k: nat)
    requires IsDescPath(blobs, p) && 0 < k <= |p|
    ensures IsDescPath(blobs, p[..k])
  {
    forall i | 0 <= i < k - 1 ensures p[..k][i + 1] in Children(blobs, p[..k][i]) {
      assert p[i + 1] in Children(blobs, p[i]);
    }
  }

  lemma ManifestChildDigests(blobs: Blobs, d: Descriptor)
    requires d.media.Manifest? && ReadDoc(blobs, d.digest).Some?
    ensures LayerDigests(Children(blobs, d))
      == {ReadDoc(blobs, d.digest).value.config.digest} + LayerDigests(ReadDoc(blobs, d.digest).value.layers)
  {
    var doc := ReadDoc(blobs, d.digest).value;
    var kids := Children(blobs, d);
    forall x ensures x in LayerDigests(kids) <==> x in {doc.config.digest} + LayerDigests(doc.layers) {
      assert kids[0] == Leaf(doc.config);
      if x in LayerDigests(doc.layers) {
        var i :| 0 <= i < |doc.layers| && doc.layers[i].digest == x;
        assert kids[i + 1] == Leaf(doc.layers[i]);
      }
    }
  }
}
