/** What a listing and an extraction make of an index: said of its members' documents, and of the pack it was
    built from (pkg/extract/extract.go, pusher.go). */
module BuiltIndexes {
  import opened Wrappers
  import opened Packing
  import opened RoundTrip
  import opened Extraction
  import Building
  import References
  import ReferenceGrammar
  import Strings

  // ---------- what a member is ----------

  ghost predicate IsDoc(store: Store, m: Entry) {
    m.digest in store && store[m.digest].Doc?
  }

  /** A manifest with the config every manifest has that was given none. */
  ghost predicate WithoutConfig(store: Store, m: Entry)
    requires IsDoc(store, m)
  {
    var config := store[m.digest].config;
    config.digest == EMPTY_CONFIG || config.media == "application/vnd.oci.empty.v1+json"
  }

  /** The annotation that names an artifact's directory is on the member or on its manifest. */
  ghost predicate NamesItself(store: Store, nameBy: string, m: Entry)
    requires IsDoc(store, m)
  {
    || (nameBy in m.annotations && m.annotations[nameBy] != "")
    || (nameBy in store[m.digest].annotations && store[m.digest].annotations[nameBy] != "")
  }

  /** A manifest built from files of this artifact. */
  ghost predicate IsBuilt(store: Store, nameBy: string, m: Entry) {
    m.media != Index && IsDoc(store, m) && WithoutConfig(store, m) && !NamesItself(store, nameBy, m)
  }

  /** An image: a manifest with a config of its own. */
  ghost predicate IsImage(store: Store, m: Entry) {
    m.media != Index && IsDoc(store, m) && !WithoutConfig(store, m)
  }

  ghost predicate IsAttestation(m: Entry) {
    m.media != Index && m.platform == "unknown/unknown"
  }

  /** An image for several platforms: images, at least one, and what attests them. */
  ghost predicate IsImageIndex(store: Store, m: Entry) {
    && m.media == Index && IsDoc(store, m)
    && (forall c | c in store[m.digest].members :: IsAttestation(c) || IsImage(store, c))
    && exists c :: c in store[m.digest].members && !IsAttestation(c) && IsImage(store, c)
  }

  /** A manifest of files that names itself: an artifact of its own. */
  ghost predicate IsNamed(store: Store, nameBy: string, m: Entry) {
    m.media != Index && IsDoc(store, m) && WithoutConfig(store, m) && NamesItself(store, nameBy, m)
  }

  /** An index that holds files or another index is a component, not an image. */
  ghost predicate IsComponent(store: Store, m: Entry) {
    && m.media == Index && IsDoc(store, m)
    && (forall c | c in store[m.digest].members :: c.media == Index || IsDoc(store, c))
    && !IsImageIndex(store, m)
  }

  ghost predicate IsMounted(store: Store, nameBy: string, m: Entry) {
    IsImage(store, m) || IsImageIndex(store, m) || IsNamed(store, nameBy, m) || IsComponent(store, m)
  }

  lemma {:induction false} OnlyImagesAre(store: Store, members: seq<Entry>, images: nat)
    requires forall c | c in members :: IsAttestation(c) || IsImage(store, c)
    ensures OnlyImages(store, members, images) ==
      Ok(images > 0 || exists c :: c in members && !IsAttestation(c) && IsImage(store, c))
  {
    if members != [] {
      var rest := members[1..];
      assert forall c :: c in members <==> c == members[0] || c in rest;
      OnlyImagesAre(store, rest, if IsAttestation(members[0]) then images else images + 1);
    }
  }

  lemma {:induction false} NotOnlyImages(store: Store, members: seq<Entry>, images: nat)
    requires forall c | c in members :: c.media == Index || IsDoc(store, c)
    requires exists c :: c in members && !IsAttestation(c) && !IsImage(store, c)
    ensures OnlyImages(store, members, images) == Ok(false)
  {
    var rest := members[1..];
    assert forall c :: c in members <==> c == members[0] || c in rest;
    if IsAttestation(members[0]) {
      NotOnlyImages(store, rest, images);
    } else if IsImage(store, members[0]) {
      NotOnlyImages(store, rest, images + 1);
    }
  }

  lemma ImageIndexIs(store: Store, m: Entry)
    requires IsImageIndex(store, m) || IsComponent(store, m)
    ensures OnlyImages(store, store[m.digest].members, 0) == Ok(IsImageIndex(store, m))
  {
    var members := store[m.digest].members;
    if forall c | c in members :: IsAttestation(c) || IsImage(store, c) {
      OnlyImagesAre(store, members, 0);
    } else {
      NotOnlyImages(store, members, 0);
    }
  }

  lemma MemberIs(store: Store, nameBy: string, m: Entry)
    requires IsBuilt(store, nameBy, m) || IsMounted(store, nameBy, m)
    ensures PartOf(store, nameBy, m).Ok? && PartOf(store, nameBy, m).value.entry == m
    ensures PartOf(store, nameBy, m).value.kind.Files? <==> IsBuilt(store, nameBy, m)
    ensures IsBuilt(store, nameBy, m) ==> PartOf(store, nameBy, m).value.layers == store[m.digest].layers
    ensures PartOf(store, nameBy, m).value.kind.Artifact? <==> IsNamed(store, nameBy, m) || IsComponent(store, m)
  {
    if m.media == Index { ImageIndexIs(store, m); }
  }

  // ---------- the listing ----------

  /** The layers of the members that were built, in the order of the members. */
  ghost function BuiltLayers(store: Store, nameBy: string, members: seq<Entry>): seq<Layer> {
    if members == [] then []
    else
      var m := members[0];
      (if IsBuilt(store, nameBy, m) then store[m.digest].layers else []) + BuiltLayers(store, nameBy, members[1..])
  }

  ghost predicate ListsAll(files: seq<PackedFile>, layers: seq<Layer>) {
    && |files| == |layers|
    && forall i | 0 <= i < |layers| :: files[i].layer == layers[i] && LayerPath(layers[i]) == Ok(files[i].path)
  }

  ghost predicate AllKnown(store: Store, nameBy: string, members: seq<Entry>) {
    forall i | 0 <= i < |members| :: IsBuilt(store, nameBy, members[i]) || IsMounted(store, nameBy, members[i])
  }

  lemma {:induction false} MembersAre(store: Store, nameBy: string, members: seq<Entry>)
    requires AllKnown(store, nameBy, members)
    ensures Parts(store, nameBy, members).Ok?
    ensures PartLayers(Parts(store, nameBy, members).value) == BuiltLayers(store, nameBy, members)
  {
    if members != [] {
      MemberIs(store, nameBy, members[0]);
      MembersAre(store, nameBy, members[1..]);
      var parts := Parts(store, nameBy, members).value;
      assert parts[1..] == Parts(store, nameBy, members[1..]).value;
    }
  }

  /** A listing of an index is its built members' layers, at their places and in their order; nothing of what is
      mounted is in it. It fails exactly when one of those layers may not be extracted. */
  lemma ListsWhatWasBuilt(store: Store, nameBy: string, desc: Entry)
    requires desc.media == Index && IsDoc(store, desc) && AllKnown(store, nameBy, store[desc.digest].members)
    ensures var layers := BuiltLayers(store, nameBy, store[desc.digest].members);
      && (Listed(store, nameBy, desc).Ok? <==> forall i | 0 <= i < |layers| :: LayerPath(layers[i]).Ok?)
      && (Listed(store, nameBy, desc).Ok? ==> ListsAll(Listed(store, nameBy, desc).value, layers))
  {
    var members := store[desc.digest].members;
    MembersAre(store, nameBy, members);
    var parts := Parts(store, nameBy, members).value;
    PartFilesFail(parts);
    LayerFilesFail(PartLayers(parts));
    if PartFiles(parts).Ok? {
      PartFilesAre(parts);
      LayerFilesAre(PartLayers(parts));
    }
  }

  lemma {:induction false} LayerFilesFail(layers: seq<Layer>)
    ensures LayerFiles(layers).Ok? <==> forall i | 0 <= i < |layers| :: LayerPath(layers[i]).Ok?
  {
    if layers != [] {
      LayerFilesFail(layers[1..]);
      assert forall i | 0 < i < |layers| :: layers[i] == layers[1..][i - 1];
      if LayerFiles(layers).Ok? {
        forall i | 0 <= i < |layers| ensures LayerPath(layers[i]).Ok? { if i > 0 { assert LayerPath(layers[1..][i - 1]).Ok?; } }
      } else if LayerFiles(layers[1..]).Err? {
        var i :| 0 <= i < |layers[1..]| && LayerPath(layers[1..][i]).Err?;
        assert LayerPath(layers[i + 1]).Err?;
      }
    }
  }

  lemma {:induction false} PartFilesFail(parts: seq<Part>)
    ensures PartFiles(parts).Ok? <==> LayerFiles(PartLayers(parts)).Ok?
  {
    if parts != [] {
      PartFilesFail(parts[1..]);
      var own := if parts[0].kind.Files? then parts[0].layers else [];
      if LayerFiles(own).Ok? {
        LayerFilesAppend(own, PartLayers(parts[1..]));
      } else {
        LayerFilesFail(own);
        LayerFilesFail(PartLayers(parts));
        var i :| 0 <= i < |own| && LayerPath(own[i]).Err?;
        assert PartLayers(parts)[i] == own[i];
      }
    }
  }

  // ---------- the pack file written back ----------

  /** Where an item says nothing of its type or its platform, the member says it. */
  function PlacedAs(m: Entry, items: seq<Item>): seq<Item> {
    seq(|items|, i requires 0 <= i < |items| =>
      Item(items[i].from, if items[i].typ == "" then m.artifactType else items[i].typ,
           if items[i].platform == "" then m.platform else items[i].platform, items[i].annotations))
  }

  /** The items of an index: a built member's, and one for everything else. */
  ghost function BackItems(store: Store, nameBy: string, repo: string, members: seq<Entry>): seq<Item> {
    if members == [] then []
    else
      var m := members[0];
      (if IsBuilt(store, nameBy, m) then PlacedAs(m, ItemsOf({}, store[m.digest].layers))
       else [Item("oci://" + repo + "@" + m.digest, "", m.platform, Strip(m.annotations))])
      + BackItems(store, nameBy, repo, members[1..])
  }

  lemma {:induction false} PartsItemsAre(store: Store, nameBy: string, repo: string, members: seq<Entry>)
    requires AllKnown(store, nameBy, members)
    ensures Parts(store, nameBy, members).Ok?
    ensures PartsItems(repo, Parts(store, nameBy, members).value) == BackItems(store, nameBy, repo, members)
  {
    if members != [] {
      MemberIs(store, nameBy, members[0]);
      PartsItemsAre(store, nameBy, repo, members[1..]);
      var parts := Parts(store, nameBy, members).value;
      assert parts[1..] == Parts(store, nameBy, members[1..]).value;
    }
  }

  /** What an extraction writes into an index's pack file. */
  lemma WritesBackItems(store: Store, nameBy: string, repo: string, d: Digest)
    requires d in store && store[d].Doc? && AllKnown(store, nameBy, store[d].members)
    ensures PackItems(store, nameBy, repo, Index, d) == BackItems(store, nameBy, repo, store[d].members)
    ensures Mounted(store, nameBy, Index, d) ==
      set m | m in store[d].members && (IsNamed(store, nameBy, m) || IsComponent(store, m)) :: m.digest
  {
    PartsItemsAre(store, nameBy, repo, store[d].members);
    forall m | m in store[d].members
      ensures KindOf(store, nameBy, m) == Ok(Artifact) <==> IsNamed(store, nameBy, m) || IsComponent(store, m)
    {
      MemberIs(store, nameBy, m);
    }
  }

  /** The item a mounted member is written back as can be read again: it is that very digest, in the artifact's own
      repository, if and only if the repository can be named by an item at all. */
  lemma MountedItemReads(valid: string -> bool, store: Store, nameBy: string, repo: string, m: Entry)
    requires References.Grammar(valid) && valid(m.digest) && IsMounted(store, nameBy, m)
    ensures var items := BackItems(store, nameBy, repo, [m]);
      |items| == 1 && items[0].platform == m.platform &&
      (References.ParseItem(valid, items[0].from) == Ok(References.Reference("oci", "", repo, m.digest)) <==>
        References.Repository(repo) && !Strings.DoubleSlash(repo) && !Strings.StartsWith(repo, '/') && References.ItemName(repo))
  {
    assert [m][1..] == [];
    var from := "oci://" + repo + "@" + m.digest;
    assert from == References.OCI + References.MARK + (repo + ("@" + m.digest)) by {
      ReferenceGrammar.OciText(repo + ("@" + m.digest));
      Strings.Assoc("oci://", repo, "@" + m.digest);
      Strings.Assoc("oci://" + repo, "@", m.digest);
    }
    References.ItemUndone(valid, repo, m.digest);
    assert IsMounted(store, nameBy, m) ==> !IsBuilt(store, nameBy, m);
  }

  // ---------- an index a pack was built into ----------

  ghost predicate HoldsManifest(store: Store, doc: Building.Blob, e: Entry)
    requires doc.Manifest?
  {
    && IsDoc(store, e) && store[e.digest].layers == doc.layers
    && store[e.digest].config == Config(doc.config.media, doc.config.digest)
  }

  /** The entry and the document a member of a pack's index is stored as. */
  ghost predicate StoredAs(store: Store, name: Building.Blob -> Digest, m: Building.Member, e: Entry) {
    && e.media == (if m.doc.Index? then Index else Manifest) && e.digest == name(m.doc)
    && e.artifactType == m.typ && e.platform == m.platform && e.annotations == m.annotations
    && (m.doc.Manifest? ==> HoldsManifest(store, m.doc, e))
  }

  ghost predicate AllStored(store: Store, name: Building.Blob -> Digest, ms: seq<Building.Member>, es: seq<Entry>) {
    |es| == |ms| && forall i | 0 <= i < |ms| :: StoredAs(store, name, ms[i], es[i])
  }

  /** A file or a directory without a config of its own, or an image that is mounted; a built manifest carries no
      annotations. */
  ghost predicate Plain(store: Store, nameBy: string, p: Building.PackItem, e: Entry) {
    if Building.IsOci(p.item.from) then IsMounted(store, nameBy, e)
    else p.config.None? && !Building.IsHttp(p.item.from) && IsDoc(store, e) && store[e.digest].annotations == map[]
  }

  ghost predicate AllPlain(store: Store, nameBy: string, items: seq<Building.PackItem>, es: seq<Entry>) {
    |es| == |items| && forall i | 0 <= i < |items| :: Plain(store, nameBy, items[i], es[i])
  }

  /** Of such a member the layers are those of its item, and of a mounted one there are none. */
  lemma MemberLayers(w: Building.World, typ: string, dest: Building.Destination, p: Building.PackItem, m: Building.Member,
                     store: Store, name: Building.Blob -> Digest, nameBy: string, e: Entry)
    requires Walks(w.host) && dest.MemberFor(w, typ, p, m) && StoredAs(store, name, m, e) && Plain(store, nameBy, p, e)
    ensures Building.Handled(w, p.item).Ok? && (IsBuilt(store, nameBy, e) || IsMounted(store, nameBy, e))
    ensures Building.LayersOf(Building.Handled(w, p.item).value)
      == if IsBuilt(store, nameBy, e) then store[e.digest].layers else []
  {
    var s :| Building.SourceIs(w, typ, p, s) && dest.MemberIs(w, s, m);
    assert Building.Resolved(w, p.item, s.content);
    HandledAs(w, p.item);
    if Building.IsOci(p.item.from) {
      assert !IsBuilt(store, nameBy, e);
    } else {
      assert m.doc.config.digest == EMPTY_CONFIG && m.annotations == map[];
    }
  }

  /** Only an image's reference is mounted. */
  lemma HandledAs(w: Building.World, item: Item)
    requires Walks(w.host)
    ensures Building.Handled(w, item).Ok? ==> (Building.Handled(w, item).value.Mounted? <==> Building.IsOci(item.from))
  {
    assert Building.IsOci(item.from) ==> item.from[0] == 'o';
  }

  ghost predicate AllMembersFor(w: Building.World, typ: string, dest: Building.Destination, items: seq<Building.PackItem>,
                                ms: seq<Building.Member>)
    requires Walks(w.host)
  {
    |ms| == |items| && forall i | 0 <= i < |items| :: dest.MemberFor(w, typ, items[i], ms[i])
  }

  lemma {:induction false} AllMemberLayers(w: Building.World, typ: string, dest: Building.Destination,
                                           items: seq<Building.PackItem>, ms: seq<Building.Member>, store: Store,
                                           name: Building.Blob -> Digest, nameBy: string, es: seq<Entry>)
    requires Walks(w.host) && AllMembersFor(w, typ, dest, items, ms)
    requires AllStored(store, name, ms, es) && AllPlain(store, nameBy, items, es)
    ensures Building.AllHandled(w, items).Ok? && AllKnown(store, nameBy, es)
    ensures BuiltLayers(store, nameBy, es) == Building.Flatten(Building.AllHandled(w, items).value)
    decreases |items|
  {
    if items != [] {
      MemberLayers(w, typ, dest, items[0], ms[0], store, name, nameBy, es[0]);
      AllMemberLayers(w, typ, dest, items[1..], ms[1..], store, name, nameBy, es[1..]);
      assert forall i | 0 < i < |es| :: es[i] == es[1..][i - 1];
      var all := Building.AllHandled(w, items).value;
      assert all[1..] == Building.AllHandled(w, items[1..]).value;
    }
  }

  /** The listing of a pack's index is the layers of its files and directories, in the pack file's order, at the
      places a manifest of the same items would list them. */
  lemma ListsThePack(w: Building.World, p: Building.PackFile, dest: Building.Destination, b: Building.Blob,
                     store: Store, name: Building.Blob -> Digest, nameBy: string, desc: Entry)
    requires Walks(w.host) && b.Index? && dest.MembersAre(w, p, b.members)
    requires desc.media == Index && IsDoc(store, desc) && AllStored(store, name, b.members, store[desc.digest].members)
    requires AllPlain(store, nameBy, p.items, store[desc.digest].members)
    ensures Building.AllHandled(w, p.items).Ok?
    ensures var layers := Building.Flatten(Building.AllHandled(w, p.items).value);
      && (Listed(store, nameBy, desc).Ok? <==> forall i | 0 <= i < |layers| :: LayerPath(layers[i]).Ok?)
      && (Listed(store, nameBy, desc).Ok? ==> ListsAll(Listed(store, nameBy, desc).value, layers))
  {
    AllMemberLayers(w, p.typ, dest, p.items, b.members, store, name, nameBy, store[desc.digest].members);
    ListsWhatWasBuilt(store, nameBy, desc);
  }

  /** A member built with a config of its own is taken for an image: none of its files is listed or extracted. */
  lemma ConfiguredIsMounted(w: Building.World, typ: string, dest: Building.Destination, p: Building.PackItem,
                            m: Building.Member, store: Store, name: Building.Blob -> Digest, nameBy: string, e: Entry)
    requires Walks(w.host) && dest.MemberFor(w, typ, p, m) && StoredAs(store, name, m, e) && !Building.IsOci(p.item.from)
    ensures m.doc.Manifest? && Building.ConfigIs(w, p.config, m.doc.config)
    ensures IsImage(store, e) <==>
      m.doc.config.digest != EMPTY_CONFIG && m.doc.config.media != "application/vnd.oci.empty.v1+json"
  {
    var s :| Building.SourceIs(w, typ, p, s) && dest.MemberIs(w, s, m);
    assert Building.Resolved(w, p.item, s.content);
    HandledAs(w, p.item);
  }
}
