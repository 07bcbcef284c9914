/** The OCI layout as the program changes it in place: Resolve, Push, SetTag and Delete
    (pkg/registry/oci-layout). */
module Layouts {
  import opened Wrappers
  import opened Graph
  import opened LayoutStore
  import opened LayoutMet

  datatype Disk = Disk(index: seq<Descriptor>, blobs: Blobs)

  // What a reader delivers: all its bytes, or an error before their end (for a layer to
  // unpack: also one from decompressing or extracting).
  datatype Stream = Whole(content: Content) | Broken

  datatype Pushed = Stored | AlreadyExists | Failed

  /** The first entry that carries the tag; past the end when none does. */
  function FindTag(index: seq<Descriptor>, tag: string): (i: nat)
    ensures i <= |index|
    ensures i < |index| ==> index[i].tag == tag
    ensures forall j | 0 <= j < i :: index[j].tag != tag
  {
    if index == [] || index[0].tag == tag then 0 else
      assert forall j | 0 < j < |index| :: index[j] == index[1..][j - 1];
      1 + FindTag(index[1..], tag)
  }

  function FindDigest(index: seq<Descriptor>, d: Digest): (i: nat)
    ensures i <= |index|
    ensures i < |index| ==> index[i].digest == d
    ensures forall j | 0 <= j < i :: index[j].digest != d
  {
    if index == [] || index[0].digest == d then 0 else
      assert forall j | 0 < j < |index| :: index[j] == index[1..][j - 1];
      1 + FindDigest(index[1..], d)
  }

  function Without(index: seq<Descriptor>, i: nat): seq<Descriptor>
    requires i < |index|
  {
    index[..i] + index[i + 1..]
  }

  /** Everything an index entry leads to is present, and its documents are readable. */
  ghost predicate Complete(d: Disk) {
    forall e, b | e in d.index && LeadsTo(d.blobs, e, b) :: b.digest in d.blobs && Readable(d.blobs, b)
  }

  /** Under no entry is a document first met as something else. */
  ghost predicate AllInOrder(index: seq<Descriptor>, blobs: Blobs) {
    forall e | e in index :: InOrder(blobs, e)
  }

  /** Delete-reachable from some entry. */
  ghost predicate Live(index: seq<Descriptor>, blobs: Blobs, x: Digest) {
    exists e :: e in index && Reach(blobs, e, x)
  }

  /** The union of what the entries refer to, or nothing if one of them cannot be read. */
  function KeepOf(blobs: Blobs, ds: seq<Descriptor>): Option<set<Digest>> {
    if ds == [] then Some({})
    else
      var rest := KeepOf(blobs, ds[..|ds| - 1]);
      var last := Collect(blobs, ds[|ds| - 1], {});
      if rest.None? || last.None? then None else Some(rest.value + last.value)
  }

  /** Something the collector takes in from one of these entries. */
  ghost predicate TakenFrom(blobs: Blobs, ds: seq<Descriptor>, x: Digest) {
    exists e :: e in ds && Taken(blobs, e, x)
  }

  lemma {:induction false} KeepIs(blobs: Blobs, ds: seq<Descriptor>, x: Digest)
    requires KeepOf(blobs, ds).Some?
    ensures x in KeepOf(blobs, ds).value <==> TakenFrom(blobs, ds, x)
  {
    if ds != [] {
      var rest, last := ds[..|ds| - 1], ds[|ds| - 1];
      SplitLast(ds);
      KeepIs(blobs, rest, x);
      CollectIs(blobs, last, x);
      if TakenFrom(blobs, rest, x) {
        var e :| e in rest && Taken(blobs, e, x);
        assert e in ds;
      }
    }
  }

  lemma {:induction false} KeepIsLive(blobs: Blobs, ds: seq<Descriptor>)
    requires AllInOrder(ds, blobs)
    ensures KeepOf(blobs, ds).Some? <==> forall e, b | e in ds && LeadsTo(blobs, e, b) :: Readable(blobs, b)
    ensures KeepOf(blobs, ds).Some? ==> forall x :: x in KeepOf(blobs, ds).value <==> Live(ds, blobs, x)
  {
    if ds != [] {
      var rest, last := ds[..|ds| - 1], ds[|ds| - 1];
      assert ds == rest + [last];
      KeepIsLive(blobs, rest);
      ReferencedIsReachable(blobs, last);
      if KeepOf(blobs, ds).Some? {
        forall x ensures x in KeepOf(blobs, ds).value <==> Live(ds, blobs, x) {
          if Live(ds, blobs, x) && !Live(rest, blobs, x) {
            var e :| e in ds && Reach(blobs, e, x);
            assert e == last;
          }
        }
      }
    }
  }

  // ---------- removing what no survivor needs ----------

  lemma {:induction false} SamePaths(a: Blobs, b: Blobs, p: seq<Descriptor>)
    requires IsDescPath(b, p)
    requires forall x | x in b :: x in a && a[x] == b[x]
    ensures IsDescPath(a, p)
  {
    forall i | 0 <= i < |p| - 1 ensures p[i + 1] in Children(a, p[i]) {
      assert p[i + 1] in Children(b, p[i]);
    }
  }

  /** Dropping blobs that no entry of the index reaches keeps a layout complete. */
  lemma RemovalKeepsComplete(index: seq<Descriptor>, before: Blobs, after: Blobs)
    requires Complete(Disk(index, before))
    requires forall x | x in after :: x in before && after[x] == before[x]
    requires forall x | x in before && Live(index, before, x) :: x in after
    ensures Complete(Disk(index, after))
  {
    forall e, b | e in index && LeadsTo(after, e, b) ensures b.digest in after && Readable(after, b) {
      var p :| DescPath(after, p, e, b);
      SamePaths(before, after, p);
      assert DescPath(before, p, e, b);
      assert LeadsTo(before, e, b);
      assert Live(index, before, b.digest) by { assert Reach(before, e, b.digest); }
    }
  }

  lemma SurvivingPaths(index: seq<Descriptor>, before: Blobs, after: Blobs, e: Descriptor, p: seq<Descriptor>)
    requires e in index && IsDescPath(before, p) && p[0] == e
    requires forall x | x in before && Live(index, before, x) :: x in after && after[x] == before[x]
    ensures IsDescPath(after, p)
  {
    forall i | 0 <= i < |p| - 1 ensures p[i + 1] in Children(after, p[i]) {
      assert p[i + 1] in Children(before, p[i]);
      PathPrefix(before, p, i + 1);
      assert DescPath(before, p[..i + 1], e, p[i]);
      assert LeadsTo(before, e, p[i]);
      assert Reach(before, e, p[i].digest);
    }
  }

  // ---------- tagging ----------

  /** SetTag replaces the entry of the same digest, and appends otherwise. */
  function TagIndex(index: seq<Descriptor>, desc: Descriptor): seq<Descriptor> {
    var i := FindDigest(index, desc.digest);
    if i < |index| then index[i := desc] else index + [desc]
  }

  /** The entry now stands at the first place of its digest, or at the end where the digest is new; every other
      entry is where it was. */
  ghost predicate Retags(was: seq<Descriptor>, desc: Descriptor, now: seq<Descriptor>) {
    && |now| == |was| + (if exists e :: e in was && e.digest == desc.digest then 0 else 1)
    && exists at :: 0 <= at < |now| && EntryAt(was, desc, now, at)
  }

  ghost predicate EntryAt(was: seq<Descriptor>, desc: Descriptor, now: seq<Descriptor>, at: nat)
    requires at < |now| && |was| <= |now|
  {
    && now[at] == desc && (at < |was| ==> was[at].digest == desc.digest)
    && (forall j | 0 <= j < at && j < |was| :: was[j].digest != desc.digest)
    && (forall j | 0 <= j < |was| && j != at :: now[j] == was[j])
  }

  /** The first entry that carried the tag is gone; every other one is there, in the same order. */
  ghost predicate TakesOut(was: seq<Descriptor>, tag: string, now: seq<Descriptor>) {
    |now| + 1 == |was| && exists at :: 0 <= at < |was| && OutAt(was, tag, now, at)
  }

  ghost predicate OutAt(was: seq<Descriptor>, tag: string, now: seq<Descriptor>, at: nat)
    requires at < |was| && |now| + 1 == |was|
  {
    && was[at].tag == tag && (forall j | 0 <= j < at :: was[j].tag != tag && now[j] == was[j])
    && (forall j | at <= j < |now| :: now[j] == was[j + 1])
  }

  lemma TagIndexRetags(index: seq<Descriptor>, desc: Descriptor)
    ensures Retags(index, desc, TagIndex(index, desc))
  {
    var i, now := FindDigest(index, desc.digest), TagIndex(index, desc);
    if i < |index| { assert index[i] in index; }
    assert EntryAt(index, desc, now, i);
  }

  lemma WithoutTakesOut(index: seq<Descriptor>, tag: string)
    requires FindTag(index, tag) < |index|
    ensures TakesOut(index, tag, Without(index, FindTag(index, tag)))
  {
    assert OutAt(index, tag, Without(index, FindTag(index, tag)), FindTag(index, tag));
  }

  /** A tag of another image still stands for it: neither the tag nor its image is the one being set. */
  lemma RetagKeepsTag(was: seq<Descriptor>, desc: Descriptor, now: seq<Descriptor>, tag: string)
    requires Retags(was, desc, now) && tag != desc.tag
    requires FindTag(was, tag) < |was| && was[FindTag(was, tag)].digest != desc.digest
    ensures FindTag(now, tag) == FindTag(was, tag) && now[FindTag(now, tag)] == was[FindTag(was, tag)]
  {
    var at :| 0 <= at < |now| && EntryAt(was, desc, now, at);
    FindTagIs(now, tag, FindTag(was, tag));
  }

  /** And so does every tag but the one deleted. */
  lemma TakeOutKeepsTag(was: seq<Descriptor>, gone: string, now: seq<Descriptor>, tag: string)
    requires TakesOut(was, gone, now) && tag != gone && FindTag(was, tag) < |was|
    ensures FindTag(now, tag) < |now| && now[FindTag(now, tag)] == was[FindTag(was, tag)]
  {
    var at :| 0 <= at < |was| && OutAt(was, gone, now, at);
    var i := FindTag(was, tag);
    FindTagIs(now, tag, if i < at then i else i - 1);
  }

  lemma {:induction false} FindTagIs(index: seq<Descriptor>, tag: string, i: nat)
    requires i < |index| && index[i].tag == tag && forall j | 0 <= j < i :: index[j].tag != tag
    ensures FindTag(index, tag) == i
  {
  }

  lemma {:induction false} FindDigestIs(index: seq<Descriptor>, d: Digest, i: nat)
    requires i < |index| && index[i].digest == d && forall j | 0 <= j < i :: index[j].digest != d
    ensures FindDigest(index, d) == i
  {
  }

  /** A tag just set resolves to the descriptor it was set on if and only if no other
      image before that descriptor's place in the index already carries the tag. */
  lemma TagResolves(index: seq<Descriptor>, desc: Descriptor)
    ensures var after := TagIndex(index, desc);
      FindTag(after, desc.tag) < |after| &&
      (after[FindTag(after, desc.tag)] == desc <==>
        forall j | 0 <= j < FindDigest(index, desc.digest) :: index[j].tag != desc.tag)
  {
    var i := FindDigest(index, desc.digest);
    var after := TagIndex(index, desc);
    assert after[i] == desc;
    assert forall j | 0 <= j < i :: after[j] == index[j];
    if forall j | 0 <= j < i :: index[j].tag != desc.tag {
      FindTagIs(after, desc.tag, i);
    } else {
      assert FindTag(after, desc.tag) < i;
    }
  }

  /** Setting a tag on a complete image keeps a layout complete. */
  lemma TagKeepsComplete(d: Disk, desc: Descriptor)
    requires Complete(d)
    requires forall b | LeadsTo(d.blobs, desc, b) :: b.digest in d.blobs && Readable(d.blobs, b)
    ensures Complete(Disk(TagIndex(d.index, desc), d.blobs))
  {
    forall e | e in TagIndex(d.index, desc) ensures e in d.index || e == desc {}
  }

  // ---------- what a delete leaves ----------

  /** Orphans: what the victim refers to and no survivor does. */
  function Orphans(d: Disk, i: nat): (o: Option<set<Digest>>)
    requires i < |d.index|
  {
    var victim := Collect(d.blobs, d.index[i], {});
    var keep := KeepOf(d.blobs, Without(d.index, i));
    if victim.None? || keep.None? then None else Some(victim.value - keep.value)
  }

  /** The orphans, on any store: what the collector takes in from the victim and from no survivor. */
  lemma OrphansAre(d: Disk, i: nat, x: Digest)
    requires i < |d.index| && Orphans(d, i).Some?
    ensures x in Orphans(d, i).value <==>
      Taken(d.blobs, d.index[i], x) && !TakenFrom(d.blobs, Without(d.index, i), x)
  {
    CollectIs(d.blobs, d.index[i], x);
    KeepIs(d.blobs, Without(d.index, i), x);
  }

  /** No survivor needs any of the orphans. */
  ghost predicate Spares(d: Disk, i: nat)
    requires i < |d.index| && Orphans(d, i).Some?
  {
    forall x | x in Orphans(d, i).value :: !Live(Without(d.index, i), d.blobs, x)
  }

  /** What lies below a document that a survivor leads to and that is mistaken for something else there
      is taken from a survivor as well, if it is taken from the victim. */
  ghost predicate Covered(d: Disk, i: nat)
    requires i < |d.index|
  {
    var rest := Without(d.index, i);
    forall e, b, c | e in rest && Mistaken(d.blobs, e, b) && LeadsTo(d.blobs, b, c) && Taken(d.blobs, d.index[i], c.digest) ::
      TakenFrom(d.blobs, rest, c.digest)
  }

  /** Exactly when a delete removes nothing a survivor needs. */
  lemma DeleteSparesIff(d: Disk, i: nat)
    requires i < |d.index| && Orphans(d, i).Some?
    ensures Spares(d, i) <==> Covered(d, i)
  {
    var rest := Without(d.index, i);
    if Spares(d, i) {
      forall e, b, c | e in rest && Mistaken(d.blobs, e, b) && LeadsTo(d.blobs, b, c) && Taken(d.blobs, d.index[i], c.digest)
        ensures TakenFrom(d.blobs, rest, c.digest)
      {
        LeadsToTwice(d.blobs, e, b, c);
        assert Reach(d.blobs, e, c.digest);
        assert Live(rest, d.blobs, c.digest);
        OrphansAre(d, i, c.digest);
      }
    }
    if Covered(d, i) {
      forall x | x in Orphans(d, i).value ensures !Live(rest, d.blobs, x) {
        OrphansAre(d, i, x);
        if Live(rest, d.blobs, x) { CoveredIsTaken(d, i, x); }
      }
    }
  }

  lemma LeadsToTwice(blobs: Blobs, a: Descriptor, b: Descriptor, c: Descriptor)
    requires LeadsTo(blobs, a, b) && LeadsTo(blobs, b, c)
    ensures LeadsTo(blobs, a, c)
  {
    var p :| DescPath(blobs, p, b, c);
    PathFollowed(blobs, a, p, 0);
  }

  lemma CoveredIsTaken(d: Disk, i: nat, x: Digest)
    requires i < |d.index| && Covered(d, i) && Live(Without(d.index, i), d.blobs, x) && Taken(d.blobs, d.index[i], x)
    ensures TakenFrom(d.blobs, Without(d.index, i), x)
  {
    var e :| e in Without(d.index, i) && Reach(d.blobs, e, x);
    if !Taken(d.blobs, e, x) {
      var y :| LeadsTo(d.blobs, e, y) && y.digest == x;
      var b := UntakenBelow(d.blobs, e, y);
    }
  }

  /** The orphans are exactly what the victim reaches and no survivor does. */
  lemma OrphansAreUnshared(d: Disk, i: nat)
    requires i < |d.index| && AllInOrder(d.index, d.blobs)
    ensures Orphans(d, i).Some? ==> forall x :: x in Orphans(d, i).value <==>
      Reach(d.blobs, d.index[i], x) && !Live(Without(d.index, i), d.blobs, x)
    ensures Orphans(d, i).None? <==>
      exists e, b :: e in d.index && LeadsTo(d.blobs, e, b) && !Readable(d.blobs, b)
  {
    var rest := Without(d.index, i);
    forall e ensures e in d.index <==> e in rest || e == d.index[i] {
      if e in d.index && e != d.index[i] {
        var j :| 0 <= j < |d.index| && d.index[j] == e;
        assert rest[if j < i then j else j - 1] == e;
      }
    }
    ReferencedIsReachable(d.blobs, d.index[i]);
    KeepIsLive(d.blobs, rest);
  }

  lemma InOrderSpares(d: Disk, i: nat)
    requires i < |d.index| && AllInOrder(Without(d.index, i), d.blobs) && Orphans(d, i).Some?
    ensures Spares(d, i)
  {
    DeleteSparesIff(d, i);
  }

  /** What the disk can look like between two writes of a delete. */
  ghost predicate Between(was: Disk, trimmed: seq<Descriptor>, orphans: set<Digest>, now: Disk) {
    && now.index == trimmed
    && was.blobs.Keys - orphans <= now.blobs.Keys <= was.blobs.Keys
    && forall d | d in now.blobs :: now.blobs[d] == was.blobs[d]
  }

  /** What h' records after h is all of a delete on its way. */
  ghost predicate PassesThrough(was: Disk, trimmed: seq<Descriptor>, orphans: set<Digest>, h: seq<Disk>, h': seq<Disk>) {
    |h| <= |h'| && h'[..|h|] == h && forall k | |h| <= k < |h'| :: Between(was, trimmed, orphans, h'[k])
  }

  lemma PassesOn(was: Disk, trimmed: seq<Descriptor>, orphans: set<Digest>, h: seq<Disk>, h': seq<Disk>, now: Disk)
    requires PassesThrough(was, trimmed, orphans, h, h') && Between(was, trimmed, orphans, now)
    ensures PassesThrough(was, trimmed, orphans, h, h' + [now])
  {
    assert (h' + [now])[..|h|] == h'[..|h|];
  }

  lemma PassesFrom(was: Disk, trimmed: seq<Descriptor>, orphans: set<Digest>,
                   h: seq<Disk>, middle: seq<Disk>, h': seq<Disk>)
    requires PassesThrough(was, trimmed, orphans, h, middle) && PassesThrough(was, trimmed, orphans, middle, h')
    ensures PassesThrough(was, trimmed, orphans, h, h')
  {
    assert h'[..|h|] == middle[..|h|];
    forall k | |h| <= k < |h'| ensures Between(was, trimmed, orphans, h'[k]) {
      if k < |middle| { assert h'[k] == middle[k]; }
    }
  }

  /** Crash consistency: of a complete layout, wherever a delete stops, what is left is complete if and
      only if the delete spares what the survivors need. */
  lemma CompleteIff(was: Disk, i: nat)
    requires i < |was.index| && Complete(was) && Orphans(was, i).Some?
    ensures (forall now | Between(was, Without(was.index, i), Orphans(was, i).value, now) :: Complete(now)) <==> Spares(was, i)
  {
    var trimmed, o := Without(was.index, i), Orphans(was, i).value;
    if Spares(was, i) {
      forall now | Between(was, trimmed, o, now) ensures Complete(now) { BetweenIsComplete(was, i, now); }
    } else {
      var x :| x in o && Live(trimmed, was.blobs, x);
      var e :| e in trimmed && Reach(was.blobs, e, x);
      var y :| LeadsTo(was.blobs, e, y) && y.digest == x;
      var p :| DescPath(was.blobs, p, e, y);
      var now := Disk(trimmed, was.blobs - o);
      assert Between(was, trimmed, o, now);
      LeadsToSelf(now.blobs, e);
      BrokenPath(was.blobs, now.blobs, p, 0);
      assert !Complete(now);
    }
  }

  /** On a path that leads to something gone, the first thing gone is still led to. */
  lemma {:induction false} BrokenPath(before: Blobs, after: Blobs, p: seq<Descriptor>, k: nat)
    requires IsDescPath(before, p) && p[|p| - 1].digest !in after && k < |p| && LeadsTo(after, p[0], p[k])
    requires forall x | x in after :: x in before && after[x] == before[x]
    ensures exists b :: LeadsTo(after, p[0], b) && b.digest !in after
    decreases |p| - k
  {
    if p[k].digest in after {
      assert k < |p| - 1 && p[k + 1] in Children(before, p[k]);
      LeadsToStep(after, p[0], p[k], p[k + 1]);
      BrokenPath(before, after, p, k + 1);
    }
  }

  lemma BetweenIsComplete(was: Disk, i: nat, now: Disk)
    requires i < |was.index| && Complete(was) && Orphans(was, i).Some? && Spares(was, i)
    requires Between(was, Without(was.index, i), Orphans(was, i).value, now)
    ensures Complete(now)
  {
    var trimmed := Without(was.index, i);
    assert forall e | e in trimmed :: e in was.index;
    RemovalKeepsComplete(trimmed, was.blobs, now.blobs);
    assert now == Disk(trimmed, now.blobs);
  }

  /** And every surviving entry reaches exactly what it reached before. */
  lemma SurvivorsUntouched(was: Disk, i: nat, now: Disk, e: Descriptor, x: Digest)
    requires i < |was.index| && Orphans(was, i).Some? && Spares(was, i)
    requires Between(was, Without(was.index, i), Orphans(was, i).value, now)
    requires e in now.index
    ensures Reach(now.blobs, e, x) <==> Reach(was.blobs, e, x)
  {
    if Reach(now.blobs, e, x) {
      var b :| LeadsTo(now.blobs, e, b) && b.digest == x;
      var p :| DescPath(now.blobs, p, e, b);
      SamePaths(was.blobs, now.blobs, p);
      assert DescPath(was.blobs, p, e, b) && LeadsTo(was.blobs, e, b);
    }
    if Reach(was.blobs, e, x) {
      var b :| LeadsTo(was.blobs, e, b) && b.digest == x;
      var p :| DescPath(was.blobs, p, e, b);
      SurvivingPaths(now.index, was.blobs, now.blobs, e, p);
      assert DescPath(now.blobs, p, e, b) && LeadsTo(now.blobs, e, b);
    }
  }

  const KEEP := Plain(Index, 1)
  const DROP := Descriptor(Manifest, 8, 0, "drop")

  /** Where a digest is used in two ways, deleting image 8 takes blob 7 from under index 1,
      which stays and still refers to it. */
  lemma MixedUseDeleteLoses()
    ensures var d := Disk([KEEP, DROP], MIXED_STORE);
      Complete(d) && FindTag(d.index, "drop") == 1 && Orphans(d, 1) == Some({7, 8}) && Live(Without(d.index, 1), d.blobs, 7)
  {
    MixedIsComplete();
    var d := Disk([KEEP, DROP], MIXED_STORE);
    FindTagIs(d.index, "drop", 1);
    MixedUseIsMissed();
    assert Without(d.index, 1) == [KEEP];
    MixedKeep();
    MixedVictim();
    assert {5, 7, 8} - {1, 2, 3, 5} == {7, 8};
  }

  lemma MixedIsComplete()
    ensures Complete(Disk([KEEP, DROP], MIXED_STORE))
  {
    var known := {KEEP, DROP, Plain(Manifest, 2), Plain(Manifest, 3), Plain(Other, 5), Plain(Other, 3), Plain(Other, 7)};
    forall a, b | a in known && b in Children(MIXED_STORE, a) ensures b in known { MixedChildren(a, b); }
    forall e, b | e in [KEEP, DROP] && LeadsTo(MIXED_STORE, e, b) ensures b.digest in MIXED_STORE && Readable(MIXED_STORE, b) {
      var p :| DescPath(MIXED_STORE, p, e, b);
      StaysKnown(MIXED_STORE, known, p, 0);
    }
  }

  lemma MixedChildren(a: Descriptor, b: Descriptor)
    requires b in Children(MIXED_STORE, a)
    requires a in {KEEP, DROP, Plain(Manifest, 2), Plain(Manifest, 3), Plain(Other, 5), Plain(Other, 3), Plain(Other, 7)}
    ensures b in {Plain(Manifest, 2), Plain(Manifest, 3), Plain(Other, 5), Plain(Other, 3), Plain(Other, 7)}
  {
    var i :| 0 <= i < |Children(MIXED_STORE, a)| && Children(MIXED_STORE, a)[i] == b;
  }

  lemma MixedKeep()
    ensures KeepOf(MIXED_STORE, [Plain(Index, 1)]) == Some({1, 2, 3, 5})
  {
    MixedUseIsMissed();
    assert [Plain(Index, 1)][..0] == [] && {} + {1, 2, 3, 5} == {1, 2, 3, 5};
  }

  lemma MixedVictim()
    ensures Collect(MIXED_STORE, Descriptor(Manifest, 8, 0, "drop"), {}) == Some({5, 7, 8})
  {
    assert LayerDigests([Plain(Layer, 7)]) == {7} && {} + {8} + {5} + {7} == {5, 7, 8};
  }

  // ---------- the layout ----------

  /** The seen map collectBlobs fills in place. */
  class DigestSet {
    var items: set<Digest>

    constructor ()
      ensures items == {}
    {
      items := {};
    }
  }

  class Layout {
    const unpack: bool
    // The canonical digest of a content, and its length.
    const hash: Content -> Digest
    const len: Content -> nat
    var index: seq<Descriptor>
    var blobs: Blobs
    // Every state the disk has been in since the layout was opened.
    ghost var history: seq<Disk>

    constructor (disk: Disk, unpack: bool, hash: Content -> Digest, len: Content -> nat)
      ensures Now() == disk && history == [disk]
      ensures this.unpack == unpack && this.hash == hash && this.len == len
    {
      this.unpack, this.hash, this.len := unpack, hash, len;
      index, blobs, history := disk.index, disk.blobs, [disk];
    }

    ghost function Now(): Disk
      reads this
    {
      Disk(index, blobs)
    }

    /** Every stored file hashes to its name. */
    ghost predicate Honest()
      reads this
    {
      forall d | d in blobs && blobs[d].File? :: hash(blobs[d].content) == d
    }

    /** The descriptor's size is the size of what its digest names. */
    ghost predicate Truthful(desc: Descriptor) {
      forall c | hash(c) == desc.digest :: len(c) == desc.size
    }

    method Resolve(tag: string) returns (found: Option<Descriptor>)
      ensures found == if FindTag(index, tag) < |index| then Some(index[FindTag(index, tag)]) else None
    {
      var i := 0;
      while i < |index|
        invariant 0 <= i <= |index|
        invariant forall j | 0 <= j < i :: index[j].tag != tag
      {
        if index[i].tag == tag {
          return Some(index[i]);
        }
        i := i + 1;
      }
      found := None;
    }

    /** exists trusts the size of a file, and in unpack mode any directory. */
    predicate Exists(desc: Descriptor)
      reads this`blobs
    {
      desc.digest in blobs &&
      if blobs[desc.digest].Dir? then unpack else len(blobs[desc.digest].content) == desc.size
    }

    method PutBlob(d: Digest, b: Blob)
      modifies this`blobs, this`history
      ensures blobs == old(blobs)[d := b] && history == old(history) + [Now()]
    {
      blobs := blobs[d := b];
      history := history + [Now()];
    }

    /** writeBlob: the bytes go to the final name, and are taken away again when they
        break off or do not hash to it. */
    method WriteBlob(desc: Descriptor, r: Stream, opens: bool) returns (res: Pushed)
      modifies this`blobs, this`history
      ensures res == if opens && r.Whole? && hash(r.content) == desc.digest then Stored else Failed
      ensures blobs == if res.Stored? then old(blobs)[desc.digest := File(r.content)]
                       else if opens then old(blobs) - {desc.digest}
                       else old(blobs)
    {
      if !opens {
        return Failed;
      }
      if r.Broken? || hash(r.content) != desc.digest {
        RemoveBlob(desc.digest);
        return Failed;
      }
      PutBlob(desc.digest, File(r.content));
      res := Stored;
    }

    /** unpackLayer: a directory, or nothing; a file in the way is an error. Only a decompressor that does
        not open leaves things as they are. */
    method UnpackLayer(desc: Descriptor, r: Stream, opens: bool) returns (res: Pushed)
      modifies this`blobs, this`history
      ensures res == if opens && r.Whole? && desc.digest !in old(blobs) then Stored else Failed
      ensures blobs == if res.Stored? then old(blobs)[desc.digest := Dir]
                       else if opens then old(blobs) - {desc.digest}
                       else old(blobs)
    {
      if !opens {
        return Failed;
      }
      if r.Broken? || desc.digest in blobs {
        RemoveBlob(desc.digest);
        return Failed;
      }
      PutBlob(desc.digest, Dir);
      res := Stored;
    }

    /** Push. Whatever happens, an honest layout stays honest and other blobs stay as they
        are; what is stored or already there is what the digest names. */
    method Push(desc: Descriptor, r: Stream, opens: bool) returns (res: Pushed)
      requires Honest() && (!unpack ==> forall d | d in blobs :: blobs[d].File?)
      modifies this`blobs, this`history
      ensures Honest() && (!unpack ==> forall d | d in blobs :: blobs[d].File?)
      ensures forall x | x != desc.digest :: (x in blobs <==> x in old(blobs)) && (x in blobs ==> blobs[x] == old(blobs)[x])
      ensures res.AlreadyExists? <==> old(Exists(desc))
      ensures res.AlreadyExists? ==> blobs == old(blobs)
      ensures !res.Failed? ==> desc.digest in blobs
      ensures res.Stored? && blobs[desc.digest].File? ==> r == Whole(blobs[desc.digest].content)
      ensures res.Stored? && blobs[desc.digest].Dir? ==> unpack && desc.media.Layer? && r.Whole?
      ensures res.Failed? ==> blobs == old(blobs) || blobs == old(blobs) - {desc.digest}
      ensures Truthful(desc) && res.Failed? ==> blobs == old(blobs)
      ensures !unpack && !old(Exists(desc)) && opens ==>
        (res.Stored? <==> r.Whole? && hash(r.content) == desc.digest)
    {
      if Exists(desc) {
        return AlreadyExists;
      }
      if desc.media.Layer? && unpack {
        res := UnpackLayer(desc, r, opens);
      } else {
        res := WriteBlob(desc, r, opens);
      }
    }

    /** With truthful sizes, exists is presence: a push that fails then takes nothing away,
        and one that is skipped was not needed. */
    lemma TruthfulExists(desc: Descriptor)
      requires Honest() && Truthful(desc)
      requires desc.digest in blobs ==> blobs[desc.digest].File? || unpack
      ensures Exists(desc) <==> desc.digest in blobs
    {
    }

    method SetTag(desc: Descriptor, tag: string, writable: bool) returns (ok: bool)
      modifies this`index, this`history
      ensures ok == writable
      ensures index == if ok then TagIndex(old(index), desc.(tag := tag)) else old(index)
      ensures ok ==> Retags(old(index), desc.(tag := tag), index)
      ensures history == if ok then old(history) + [Now()] else old(history)
    {
      var tagged := desc.(tag := tag);
      var index' := index;
      var found := false;
      var i := 0;
      while i < |index| && !found
        invariant 0 <= i <= |index| && index == old(index) && history == old(history)
        invariant !found ==> index' == index && forall j | 0 <= j < i :: index[j].digest != desc.digest
        invariant found ==> index' == TagIndex(index, tagged) && FindDigest(index, desc.digest) < |index|
      {
        if index[i].digest == desc.digest {
          FindDigestIs(index, desc.digest, i);
          index' := index[i := tagged];
          found := true;
        }
        i := i + 1;
      }
      if !found {
        index' := index' + [tagged];
      }
      if !writable {
        return false;
      }
      TagIndexRetags(index, tagged);
      WriteIndex(index');
      ok := true;
    }

    /** collectBlobs, filling seen in place. */
    method CollectBlobs(desc: Descriptor, seen: DigestSet) returns (ok: bool)
      modifies seen
      ensures ok == Collect(blobs, desc, old(seen.items)).Some?
      ensures ok ==> seen.items == Collect(blobs, desc, old(seen.items)).value
      decreases |blobs.Keys - seen.items|, 0, 0
    {
      if desc.digest in seen.items {
        return true;
      }
      ghost var seen0 := seen.items;
      seen.items := seen.items + {desc.digest};
      if !IsDoc(desc.media) {
        return true;
      }
      var doc := ReadDoc(blobs, desc.digest);
      if doc.None? {
        return false;
      }
      if desc.media.Index? {
        UnseenShrinks(blobs, seen0, desc.digest);
        ok := CollectMembers(doc.value.members, seen);
      } else {
        seen.items := seen.items + {doc.value.config.digest};
        MarkLayers(doc.value.layers, seen);
        ok := true;
      }
    }

    method CollectMembers(ms: seq<Descriptor>, seen: DigestSet) returns (ok: bool)
      modifies seen
      ensures ok == CollectAll(blobs, ms, old(seen.items)).Some?
      ensures ok ==> seen.items == CollectAll(blobs, ms, old(seen.items)).value
      decreases |blobs.Keys - seen.items|, 1, |ms|
    {
      var i := 0;
      while i < |ms|
        invariant 0 <= i <= |ms| && old(seen.items) <= seen.items
        invariant CollectAll(blobs, ms[i..], seen.items) == CollectAll(blobs, ms, old(seen.items))
      {
        CardinalityMonotone(blobs.Keys - seen.items, blobs.Keys - old(seen.items));
        assert ms[i..][1..] == ms[i + 1..];
        ok := CollectBlobs(ms[i], seen);
        if !ok {
          return;
        }
        i := i + 1;
      }
      ok := true;
    }

    method MarkLayers(ls: seq<Descriptor>, seen: DigestSet)
      modifies seen
      ensures seen.items == old(seen.items) + LayerDigests(ls)
    {
      var i := 0;
      while i < |ls|
        invariant 0 <= i <= |ls|
        invariant seen.items == old(seen.items) + LayerDigests(ls[..i])
      {
        seen.items := seen.items + {ls[i].digest};
        assert ls[..i + 1] == ls[..i] + [ls[i]];
        i := i + 1;
      }
      assert ls[..i] == ls;
    }

    method ReferencedBlobs(desc: Descriptor) returns (refs: Option<set<Digest>>)
      ensures refs == Collect(blobs, desc, {})
    {
      var seen := new DigestSet();
      var ok := CollectBlobs(desc, seen);
      refs := if ok then Some(seen.items) else None;
    }

    method ReferencedByAll(ds: seq<Descriptor>) returns (keep: Option<set<Digest>>)
      ensures keep == KeepOf(blobs, ds)
    {
      var all := {};
      var i := 0;
      while i < |ds|
        invariant 0 <= i <= |ds|
        invariant KeepOf(blobs, ds[..i]) == Some(all)
      {
        var refs := ReferencedBlobs(ds[i]);
        assert ds[..i + 1][..i] == ds[..i];
        if refs.None? {
          KeepFails(blobs, ds, i + 1);
          return None;
        }
        all := all + refs.value;
        i := i + 1;
      }
      assert ds[..i] == ds;
      keep := Some(all);
    }

    method WriteIndex(index': seq<Descriptor>)
      modifies this`index, this`history
      ensures index == index' && history == old(history) + [Now()]
    {
      index := index';
      history := history + [Now()];
    }

    method RemoveBlob(d: Digest)
      modifies this`blobs, this`history
      ensures blobs == old(blobs) - {d} && history == old(history) + [Now()]
    {
      blobs := blobs - {d};
      history := history + [Now()];
    }

    /** Delete. The environment decides which orphans are mounted (or that this cannot be
        told), whether the index can be written, and which removals fail. */
    method Delete(tag: string, mounted: Option<set<Digest>>, writable: bool, stuck: set<Digest>) returns (ok: bool)
      modifies this`index, this`blobs, this`history
      ensures var was, i := old(Now()), FindTag(old(index), tag);
        ok == (i < |was.index| && Orphans(was, i).Some? && writable &&
               (unpack ==> mounted.Some? && Orphans(was, i).value !! mounted.value))
      ensures !ok ==> Now() == old(Now()) && history == old(history)
      ensures ok ==> var was, i := old(Now()), FindTag(old(index), tag);
        index == Without(was.index, i) && blobs == was.blobs - (Orphans(was, i).value - stuck)
      ensures ok ==> TakesOut(old(index), tag, index)
      ensures ok ==> var was, i := old(Now()), FindTag(old(index), tag);
        PassesThrough(was, Without(was.index, i), Orphans(was, i).value, old(history), history)
    {
      var i := FindTag(index, tag);
      if i == |index| {
        return false;
      }
      var victim := ReferencedBlobs(index[i]);
      if victim.None? {
        return false;
      }
      var remaining := index[..i] + index[i + 1..];
      var keep := ReferencedByAll(remaining);
      if keep.None? {
        return false;
      }
      var orphans := victim.value - keep.value;
      if unpack {
        if mounted.None? || orphans * mounted.value != {} {
          return false;
        }
      }
      if !writable {
        return false;
      }
      WithoutTakesOut(index, tag);
      Drop(remaining, orphans, stuck);
      ok := true;
    }

    /** The index without the entry is written first; then the orphans go. */
    method Drop(index': seq<Descriptor>, orphans: set<Digest>, stuck: set<Digest>)
      modifies this`index, this`blobs, this`history
      ensures index == index' && blobs == old(blobs) - (orphans - stuck)
      ensures PassesThrough(old(Now()), index', orphans, old(history), history)
    {
      WriteIndex(index');
      ghost var written := history;
      RemoveOrphans(orphans, stuck, old(Now()));
      PassesFrom(old(Now()), index', orphans, old(history), written, history);
    }

    /** The removal loop: a blob that cannot be removed is passed over. */
    method RemoveOrphans(orphans: set<Digest>, stuck: set<Digest>, ghost was: Disk)
      requires blobs == was.blobs
      modifies this`blobs, this`history
      ensures blobs == was.blobs - (orphans - stuck)
      ensures PassesThrough(was, index, orphans, old(history), history)
    {
      var todo := orphans;
      while todo != {}
        invariant todo <= orphans
        invariant blobs == was.blobs - (orphans - todo - stuck)
        invariant PassesThrough(was, index, orphans, old(history), history)
      {
        var d :| d in todo;
        todo := todo - {d};
        if d !in stuck {
          ghost var before := history;
          RemoveBlob(d);
          PassesOn(was, index, orphans, old(history), before, Now());
        }
      }
    }
  }

  lemma {:induction false} KeepFails(blobs: Blobs, ds: seq<Descriptor>, k: nat)
    requires k <= |ds| && KeepOf(blobs, ds[..k]).None?
    ensures KeepOf(blobs, ds).None?
    decreases |ds| - k
  {
    if k < |ds| {
      assert ds[..k + 1][..k] == ds[..k];
      KeepFails(blobs, ds, k + 1);
    } else {
      assert ds[..k] == ds;
    }
  }
}
