/** The extractor at work: which artifacts it builds, and that it ends. */
module Extractors {
  import opened Wrappers
  import opened Strings
  import opened Packing
  import opened RoundTrip
  import opened Extraction

  const CONFIG := "config.json"
  const IMAGE_CONFIG := "image.json"

  /** What an extraction has come to: the digests seen and the media each was taken for, the pack files
      written (in order) and their items, and the packed files written for each artifact. */
  datatype Progress = Progress(seen: set<Digest>, taken: map<Digest, Media>, built: seq<Digest>,
                               packs: map<Digest, seq<Item>>, written: map<Digest, seq<PackedFile>>)

  function Log(written: map<Digest, seq<PackedFile>>, d: Digest): seq<PackedFile> {
    if d in written then written[d] else []
  }

  /** A set with everything that is mounted into what it holds, as far as that is known by now. */
  ghost predicate Closed(store: Store, nameBy: string, taken: map<Digest, Media>, s: set<Digest>) {
    forall d | d in s && d in taken :: Mounted(store, nameBy, taken[d], d) <= s
  }

  ghost predicate Consistent(p: Progress) {
    && (forall d | d in p.built :: d in p.seen)
    && (forall i, j | 0 <= i < j < |p.built| :: p.built[i] != p.built[j])
    && p.written.Keys <= p.seen && p.taken.Keys == p.seen
  }

  /** From a to b nothing is forgotten, and the files of an artifact seen before change for the owner's only. */
  ghost predicate Grew(a: Progress, b: Progress, owner: set<Digest>) {
    && a.seen <= b.seen && a.built <= b.built
    && (forall d | d in a.taken :: d in b.taken && b.taken[d] == a.taken[d])
    && (forall d | d in b.built && d !in a.built :: d in b.seen - a.seen)
    && (forall d | d in a.seen - owner :: (d in a.packs <==> d in b.packs) && (d in a.packs ==> b.packs[d] == a.packs[d]))
    && (forall d | d in a.seen - owner :: Log(b.written, d) == Log(a.written, d))
  }

  /** An artifact that is finished: all that is mounted into it has been seen, its pack file names
      its items, and its files are those a listing shows. */
  ghost predicate Finished(store: Store, nameBy: string, repo: string, b: Progress, d: Digest) {
    && d in b.taken && Mounted(store, nameBy, b.taken[d], d) <= b.seen
    && d in b.built && d in b.packs && b.packs[d] == PackItems(store, nameBy, repo, b.taken[d], d)
    && ListedAs(store, nameBy, b.taken[d], d) == Ok(Log(b.written, d))
  }

  function ListedAs(store: Store, nameBy: string, media: Media, d: Digest): Result<seq<PackedFile>, Error> {
    Listed(store, nameBy, Entry(media, d, "", "", map[]))
  }

  ghost predicate AllFinished(store: Store, nameBy: string, repo: string, a: Progress, b: Progress) {
    forall d | d in b.seen - a.seen :: Finished(store, nameBy, repo, b, d)
  }

  ghost predicate Needed(store: Store, nameBy: string, a: Progress, b: Progress, roots: set<Digest>) {
    forall s: set<Digest> | Closed(store, nameBy, b.taken, s) && roots <= s :: b.seen <= a.seen + s
  }

  lemma GrewTwice(a: Progress, b: Progress, c: Progress, owner: set<Digest>)
    requires Grew(a, b, owner) && Grew(b, c, owner) && owner <= a.seen
    ensures Grew(a, c, owner)
  {
  }

  lemma FinishedStays(store: Store, nameBy: string, repo: string,
                      a: Progress, b: Progress, c: Progress, owner: set<Digest>)
    requires AllFinished(store, nameBy, repo, a, b) && AllFinished(store, nameBy, repo, b, c)
    requires Grew(b, c, owner) && owner <= a.seen
    ensures AllFinished(store, nameBy, repo, a, c)
  {
    forall d | d in c.seen - a.seen ensures Finished(store, nameBy, repo, c, d) {
      if d in b.seen {
        assert Finished(store, nameBy, repo, b, d);
      }
    }
  }

  /** The directories that have been written to, and every file ever put: directory, place and digest. */
  datatype Disk = Disk(dirs: map<string, Tree>, puts: set<(string, string, Digest)>)

  function TreeAt(disk: Disk, name: string): Tree {
    if name in disk.dirs then disk.dirs[name] else map[]
  }

  function Put(disk: Disk, name: string, rel: string, d: Digest, tree: Tree): Disk {
    Disk(disk.dirs[name := tree], disk.puts + {(name, Clean(rel), d)})
  }

  /** Every file holds something that was put in its place. */
  ghost predicate Traced(disk: Disk) {
    forall n, q | n in disk.dirs && q in disk.dirs[n] && disk.dirs[n][q].File? :: (n, q, disk.dirs[n][q].digest) in disk.puts
  }

  /** Nothing that was in some directory is gone from it. */
  ghost predicate KeptAll(a: Disk, b: Disk) {
    && (forall n | n in a.dirs :: n in b.dirs && Kept(a.dirs[n], b.dirs[n]))
    && a.puts <= b.puts && (Traced(a) ==> Traced(b))
  }

  /** The files were put at their paths, and files are there. */
  ghost predicate Landed(files: seq<PackedFile>, name: string, disk: Disk) {
    forall f | f in files ::
      && (name, Clean(f.path), f.layer.digest) in disk.puts
      && name in disk.dirs && Clean(f.path) in disk.dirs[name] && disk.dirs[name][Clean(f.path)].File?
  }

  /** So unless something else was put in its very place, a listed file holds its layer's bytes. */
  lemma LandedBytes(files: seq<PackedFile>, name: string, disk: Disk, f: PackedFile)
    requires Landed(files, name, disk) && Traced(disk) && f in files
    ensures (forall x | (name, Clean(f.path), x) in disk.puts :: x == f.layer.digest) ==>
      disk.dirs[name][Clean(f.path)] == File(f.layer.digest)
  {
    var held := disk.dirs[name][Clean(f.path)].digest;
    assert (name, Clean(f.path), held) in disk.puts;
  }

  ghost predicate PackPut(disk: Disk, packFile: Digest) {
    exists name :: (name, Clean(PACKFILE), packFile) in disk.puts
  }

  ghost predicate ConfigPut(store: Store, desc: Entry, name: string, disk: Disk) {
    desc.media == Manifest && desc.digest in store && store[desc.digest].Doc? && HasOwnConfig(store[desc.digest]) ==>
      (name, Clean(CONFIG), store[desc.digest].config.digest) in disk.puts
  }

  predicate HasOwnConfig(doc: Blob)
    requires doc.Doc?
  {
    doc.config.digest != EMPTY_CONFIG && doc.config.media != "application/vnd.oci.empty.v1+json"
  }

  /** What an artifact's directory is called: what names it, on its descriptor or else on its document; or else the
      fallback; or else the beginning of its digest. */
  ghost predicate Called(store: Store, nameBy: string, desc: Entry, fallback: string, name: string)
    requires desc.digest in store && store[desc.digest].Doc?
  {
    var own := store[desc.digest].annotations;
    if nameBy in desc.annotations && desc.annotations[nameBy] != "" then name == desc.annotations[nameBy]
    else if nameBy !in desc.annotations && nameBy in own && own[nameBy] != "" then name == own[nameBy]
    else if fallback != "" then name == fallback
    else name == Short(desc.digest)
  }

  lemma LandedStays(files: seq<PackedFile>, name: string, a: Disk, b: Disk)
    requires Landed(files, name, a) && KeptAll(a, b)
    ensures Landed(files, name, b)
  {
  }

  lemma KeptAllTwice(a: Disk, b: Disk, c: Disk)
    requires KeptAll(a, b) && KeptAll(b, c)
    ensures KeptAll(a, c)
  {
  }

  lemma PutKeeps(disk: Disk, name: string, rel: string, d: Digest, tree: Tree)
    requires Write(TreeAt(disk, name), rel, d) == Ok(tree)
    ensures KeptAll(disk, Put(disk, name, rel, d, tree))
    ensures Clean(rel) in tree && tree[Clean(rel)].File?
  {
    WriteLeaves(TreeAt(disk, name), rel, d);
  }

  lemma LandedMore(files: seq<PackedFile>, disk: Disk, name: string, l: Layer, rel: string, tree: Tree)
    requires Write(TreeAt(disk, name), rel, l.digest) == Ok(tree) && Landed(files, name, disk)
    ensures Landed(files + [PackedFile(rel, l)], name, Put(disk, name, rel, l.digest, tree))
  {
    PutKeeps(disk, name, rel, l.digest, tree);
    LandedStays(files, name, disk, Put(disk, name, rel, l.digest, tree));
  }

  function Resumed(items: seq<Item>, rest: Result<Extracted, Error>): Result<Extracted, Error> {
    match rest
    case Err(e) => Err(e)
    case Ok(out) => Ok(Extracted(out.tree, items + out.items))
  }

  class Extractor {
    const store: Store
    const nameBy: string
    const repo: string
    const imageConfig: bool
    const marshal: seq<Item> -> Digest
    var seen: set<Digest>
    ghost var taken: map<Digest, Media>
    var built: seq<Digest>
    var packs: map<Digest, seq<Item>>
    var written: map<Digest, seq<PackedFile>>
    var disk: Disk

    constructor (store: Store, nameBy: string, repo: string, imageConfig: bool, marshal: seq<Item> -> Digest)
      ensures this.store == store && this.nameBy == nameBy && this.repo == repo
      ensures Now() == START && disk == Disk(map[], {})
    {
      this.store, this.nameBy, this.repo := store, nameBy, repo;
      this.imageConfig, this.marshal := imageConfig, marshal;
      seen, taken, built, packs, written, disk := {}, map[], [], map[], map[], Disk(map[], {});
    }

    ghost function Now(): Progress
      reads this
    {
      Progress(seen, taken, built, packs, written)
    }

    function Dir(name: string): Tree
      reads this`disk
    {
      TreeAt(disk, name)
    }

    predicate IsStored(m: Entry) {
      m.digest in store && store[m.digest].Doc?
    }

    ghost predicate Here(owner: Digest, name: string)
      reads this
    {
      Landed(Log(written, owner), name, disk)
    }

    /** Every pack file noted was put, as it is, into some directory. */
    ghost predicate AllPut()
      reads this
    {
      forall d | d in packs :: PackPut(disk, marshal(packs[d]))
    }

    // ---------- reading ----------

    method IsImage(m: Entry) returns (image: Result<bool, Error>)
      ensures image ==
        match Fetch(store, m.digest) { case Err(e) => Err(e) case Ok(doc) => OnlyImages(store, doc.members, 0) }
    {
      var doc := Fetch(store, m.digest);
      if doc.Err? { return Err(doc.error); }
      var images := 0;
      var members := doc.value.members;
      for i := 0 to |members|
        invariant images >= 0 && OnlyImages(store, members, 0) == OnlyImages(store, members[i..], images)
      {
        var c := members[i];
        assert members[i..][1..] == members[i + 1..];
        if c.media == Index { return Ok(false); }
        if c.platform != "unknown/unknown" {
          var man := Fetch(store, c.digest);
          if man.Err? { return Err(man.error); }
          if IsEmptyConfig(man.value.config) { return Ok(false); }
          images := images + 1;
        }
      }
      return Ok(images > 0);
    }

    /** parts: the one place that says which members are files and which are mounted. */
    method Classify(members: seq<Entry>) returns (parts: Result<seq<Part>, Error>)
      ensures parts == Parts(store, nameBy, members)
    {
      var done := [];
      assert members[0..] == members;
      AfterNone(Parts(store, nameBy, members));
      for i := 0 to |members|
        invariant Parts(store, nameBy, members) == After(done, Parts(store, nameBy, members[i..]))
      {
        var m := members[i];
        assert members[i..][1..] == members[i + 1..];
        var kind, layers := Kind.Artifact, [];
        if m.media == Index {
          var image := IsImage(m);
          if image.Err? { return Err(image.error); }
          if image.value { kind := Kind.Image; }
        } else {
          var man := Fetch(store, m.digest);
          if man.Err? { return Err(man.error); }
          layers := man.value.layers;
          if !IsEmptyConfig(man.value.config) {
            kind := Kind.Image;
          } else if Note(m.annotations, nameBy) == "" && Note(man.value.annotations, nameBy) == "" {
            kind := Kind.Files;
          }
        }
        AfterBoth(done, [Part(m, kind, layers)], Parts(store, nameBy, members[i + 1..]));
        done := done + [Part(m, kind, layers)];
      }
      assert members[|members|..] == [];
      assert done + [] == done;
      return Ok(done);
    }

    method FilesOfLayers(layers: seq<Layer>) returns (files: Result<seq<PackedFile>, Error>)
      ensures files == LayerFiles(layers)
    {
      var done := [];
      assert layers[0..] == layers;
      AfterNone(LayerFiles(layers));
      for i := 0 to |layers|
        invariant LayerFiles(layers) == After(done, LayerFiles(layers[i..]))
      {
        var p := LayerPath(layers[i]);
        if p.Err? { return Err(p.error); }
        assert layers[i..][1..] == layers[i + 1..];
        AfterBoth(done, [PackedFile(p.value, layers[i])], LayerFiles(layers[i + 1..]));
        done := done + [PackedFile(p.value, layers[i])];
      }
      assert layers[|layers|..] == [];
      assert done + [] == done;
      return Ok(done);
    }

    method List(desc: Entry) returns (files: Result<seq<PackedFile>, Error>)
      ensures files == Listed(store, nameBy, desc)
    {
      var doc := Read(store, desc);
      if doc.Err? { return Err(doc.error); }
      if desc.media == Manifest {
        files := FilesOfLayers(doc.value.layers);
        return;
      }
      var parts := Classify(doc.value.members);
      if parts.Err? { return Err(parts.error); }
      files := FilesOfParts(parts.value);
    }

    method FilesOfParts(parts: seq<Part>) returns (files: Result<seq<PackedFile>, Error>)
      ensures files == PartFiles(parts)
    {
      var done := [];
      assert parts[0..] == parts;
      AfterNone(PartFiles(parts));
      for i := 0 to |parts|
        invariant PartFiles(parts) == After(done, PartFiles(parts[i..]))
      {
        assert parts[i..][1..] == parts[i + 1..];
        if parts[i].kind.Files? {
          var more := FilesOfLayers(parts[i].layers);
          if more.Err? { return Err(more.error); }
          AfterBoth(done, more.value, PartFiles(parts[i + 1..]));
          done := done + more.value;
        }
      }
      assert parts[|parts|..] == [];
      assert done + [] == done;
      return Ok(done);
    }

    // ---------- writing ----------

    method WriteAt(name: string, rel: string, d: Digest) returns (result: Result<(), Error>)
      modifies this`disk
      ensures result.Ok? <==> Write(old(Dir(name)), rel, d).Ok?
      ensures disk == if result.Ok? then Put(old(disk), name, rel, d, Write(old(Dir(name)), rel, d).value) else old(disk)
      ensures KeptAll(old(disk), disk)
    {
      var t := Write(Dir(name), rel, d);
      if t.Err? { return Err(t.error); }
      PutKeeps(disk, name, rel, d, t.value);
      disk := Put(disk, name, rel, d, t.value);
      return Ok(());
    }

    method WriteBlob(name: string, rel: string, d: Digest) returns (result: Result<(), Error>)
      modifies this`disk
      ensures result.Ok? <==> d in store && Write(old(Dir(name)), rel, d).Ok?
      ensures disk == if result.Ok? then Put(old(disk), name, rel, d, Write(old(Dir(name)), rel, d).value) else old(disk)
      ensures KeptAll(old(disk), disk)
    {
      if d !in store { return Err(Missing); }
      result := WriteAt(name, rel, d);
    }

    /** A config beside an artifact's files. */
    method WriteConfig(owner: Digest, name: string, rel: string, d: Digest) returns (result: Result<(), Error>)
      modifies this`disk
      ensures KeptAll(old(disk), disk) && (old(Here(owner, name)) ==> Here(owner, name))
      ensures result.Ok? ==> d in store && (name, Clean(rel), d) in disk.puts
      ensures result.Err? ==> disk == old(disk)
    {
      result := WriteBlob(name, rel, d);
      if old(Here(owner, name)) { LandedStays(Log(written, owner), name, old(disk), disk); }
    }

    /** One layer: its blob to its place, and a note of it for the artifact it belongs to. */
    method WriteLayer(owner: Digest, l: Layer, name: string) returns (result: Result<string, Error>)
      modifies this`disk, this`written
      ensures result.Ok? ==> LayerPath(l) == result && Write(old(Dir(name)), result.value, l.digest) == Ok(Dir(name))
      ensures result.Ok? ==> Log(written, owner) == old(Log(written, owner)) + [PackedFile(result.value, l)]
      ensures written - {owner} == old(written) - {owner}
      ensures disk.dirs - {name} == old(disk.dirs) - {name} && KeptAll(old(disk), disk)
      ensures old(Here(owner, name)) ==> Here(owner, name)
    {
      result := LayerPath(l);
      if result.Ok? {
        var wrote := WriteBlob(name, result.value, l.digest);
        if wrote.Err? { return Err(wrote.error); }
        if old(Here(owner, name)) { LandedMore(Log(written, owner), old(disk), name, l, result.value, Dir(name)); }
        written := written[owner := Log(written, owner) + [PackedFile(result.value, l)]];
      }
    }

    static method AddItem(items: seq<Item>, dirs: set<string>, rel: string, l: Layer)
      returns (more: seq<Item>, seen: set<string>)
      ensures more == items + ItemOf(dirs, rel, l) && seen == Subdirs(dirs, l)
    {
      more, seen := items, dirs;
      var sub := Source(l);
      if sub == "" {
        more := items + [Item(FILE + rel, l.artifactType, l.platform, Strip(l.annotations) - {TITLE})];
      } else if sub !in dirs {
        seen := dirs + {sub};
        more := items + [Item(DIR + sub + "/", l.artifactType, l.platform, map[])];
      } else {
        assert dirs + {sub} == dirs && items + [] == items;
      }
    }

    /** files: writes an artifact's layers at their places and returns the items that packed them. */
    method WriteFiles(owner: Digest, layers: seq<Layer>, name: string) returns (result: Result<seq<Item>, Error>)
      modifies this`disk, this`written
      ensures result.Ok? ==> Packing.Files({}, layers, old(Dir(name))) == Ok(Extracted(Dir(name), result.value))
      ensures result.Ok? ==> After(old(Log(written, owner)), LayerFiles(layers)) == Ok(Log(written, owner))
      ensures written - {owner} == old(written) - {owner}
      ensures disk.dirs - {name} == old(disk.dirs) - {name} && KeptAll(old(disk), disk)
      ensures old(Here(owner, name)) ==> Here(owner, name)
    {
      var items, dirs: set<string> := [], {};
      ghost var all, log := Packing.Files({}, layers, Dir(name)), After(Log(written, owner), LayerFiles(layers));
      assert layers[0..] == layers;
      ResumedNone(all);
      for i := 0 to |layers|
        invariant all == Resumed(items, Packing.Files(dirs, layers[i..], Dir(name)))
        invariant log == After(Log(written, owner), LayerFiles(layers[i..]))
        invariant written - {owner} == old(written) - {owner}
        invariant disk.dirs - {name} == old(disk.dirs) - {name} && KeptAll(old(disk), disk)
        invariant old(Here(owner, name)) ==> Here(owner, name)
      {
        var l := layers[i];
        ghost var kept, noted := disk, Log(written, owner);
        var rel := WriteLayer(owner, l, name);
        KeptAllTwice(old(disk), kept, disk);
        if rel.Err? { return Err(rel.error); }
        assert layers[i..][1..] == layers[i + 1..];
        FilesNext(items, dirs, layers[i..], TreeAt(kept, name), Dir(name));
        LayerFilesNext(noted, layers[i..]);
        items, dirs := AddItem(items, dirs, rel.value, l);
      }
      assert layers[|layers|..] == [];
      FilesDone(items, dirs, Dir(name));
      AfterDone(Log(written, owner));
      return Ok(items);
    }

    // ---------- artifacts ----------

    /** item: a member's files, or a reference to what is mounted, which an artifact is extracted for. */
    method WriteItem(p: Part, owner: Digest, name: string) returns (result: Result<seq<Item>, Error>)
      requires Consistent(Now()) && owner in seen
      modifies this
      decreases store.Keys - seen, 2
      ensures Consistent(Now()) && Grew(old(Now()), Now(), {owner})
      ensures Needed(store, nameBy, old(Now()), Now(), ArtifactsOf([p]))
      ensures result.Ok? ==> AllFinished(store, nameBy, repo, old(Now()), Now())
      ensures result.Ok? ==> result.value == PartItems(repo, p) && ArtifactsOf([p]) <= seen
      ensures result.Ok? ==> After(old(Log(written, owner)), PartFiles([p])) == Ok(Log(written, owner))
      ensures KeptAll(old(disk), disk) && (old(Here(owner, name)) ==> Here(owner, name))
      ensures old(AllPut()) ==> AllPut()
      ensures result.Ok? && p.kind.Image? && imageConfig && p.entry.media != Index && IsStored(p.entry) ==>
        (name, Clean(IMAGE_CONFIG), store[p.entry.digest].config.digest) in disk.puts
    {
      assert p in [p];
      PartFilesOne(p, Log(written, owner));
      var m := p.entry;
      match p.kind {
        case Artifact =>
          var dir := Artifact(m, Short(m.digest));
          if dir.Err? { return Err(dir.error); }
          return Ok([MountedItem(repo, m)]);
        case Image =>
          result := WriteImage(m, owner, name, IMAGE_CONFIG);
        case Files =>
          result := WriteMember(p, owner, name);
          OthersKept(old(written), written, owner);
      }
    }

    /** A mounted image: its reference, and its config beside the files if that is wanted. */
    method WriteImage(m: Entry, owner: Digest, name: string, rel: string) returns (result: Result<seq<Item>, Error>)
      modifies this`disk
      ensures result.Ok? ==> result.value == [MountedItem(repo, m)]
      ensures result.Ok? && imageConfig && m.media != Index && IsStored(m) ==>
        (name, Clean(rel), store[m.digest].config.digest) in disk.puts
      ensures KeptAll(old(disk), disk) && (old(Here(owner, name)) ==> Here(owner, name))
    {
      if imageConfig && m.media != Index && IsStored(m) {
        var wrote := WriteConfig(owner, name, rel, store[m.digest].config.digest);
        if wrote.Err? { return Err(wrote.error); }
      }
      return Ok([MountedItem(repo, m)]);
    }

    /** A built member's files, its items typed and placed on a platform as the member is. */
    method WriteMember(p: Part, owner: Digest, name: string) returns (result: Result<seq<Item>, Error>)
      modifies this`disk, this`written
      ensures result.Ok? ==> result.value == FilledAll(LayerItems(p.layers), p.entry)
      ensures result.Ok? ==> After(old(Log(written, owner)), LayerFiles(p.layers)) == Ok(Log(written, owner))
      ensures written - {owner} == old(written) - {owner}
      ensures KeptAll(old(disk), disk) && (old(Here(owner, name)) ==> Here(owner, name))
    {
      ghost var tree := Dir(name);
      var items := WriteFiles(owner, p.layers, name);
      ItemsWritten(p.layers, tree);
      if items.Err? { return items; }
      var filled := Fill(items.value, p.entry);
      return Ok(filled);
    }

    static method Fill(items: seq<Item>, m: Entry) returns (filled: seq<Item>)
      ensures filled == FilledAll(items, m)
    {
      filled := items;
      for i := 0 to |filled|
        invariant |filled| == |items|
        invariant forall j | 0 <= j < |filled| :: filled[j] == if j < i then Filled(items[j], m) else items[j]
      {
        var item := filled[i];
        if item.typ == "" { item := item.(typ := m.artifactType); }
        if item.platform == "" { item := item.(platform := m.platform); }
        filled := filled[i := item];
      }
    }

    method WriteParts(parts: seq<Part>, owner: Digest, name: string)
      returns (result: Result<seq<Item>, Error>)
      requires Consistent(Now()) && owner in seen
      modifies this
      decreases store.Keys - seen, 3
      ensures Consistent(Now()) && Grew(old(Now()), Now(), {owner})
      ensures Needed(store, nameBy, old(Now()), Now(), ArtifactsOf(parts))
      ensures result.Ok? ==> AllFinished(store, nameBy, repo, old(Now()), Now())
      ensures result.Ok? ==> result.value == PartsItems(repo, parts) && ArtifactsOf(parts) <= seen
      ensures result.Ok? ==> After(old(Log(written, owner)), PartFiles(parts)) == Ok(Log(written, owner))
      ensures KeptAll(old(disk), disk) && (old(Here(owner, name)) ==> Here(owner, name))
      ensures old(AllPut()) ==> AllPut()
    {
      var items := [];
      SoFarNone(repo, parts, Log(written, owner));
      for i := 0 to |parts|
        invariant Consistent(Now()) && Grew(old(Now()), Now(), {owner})
        invariant Needed(store, nameBy, old(Now()), Now(), ArtifactsOf(parts))
        invariant AllFinished(store, nameBy, repo, old(Now()), Now())
        invariant ArtifactsOf(parts[..i]) <= seen
        invariant SoFar(repo, parts, i, items, old(Log(written, owner)), Log(written, owner))
        invariant KeptAll(old(disk), disk) && (old(Here(owner, name)) ==> Here(owner, name))
        invariant old(AllPut()) ==> AllPut()
      {
        ghost var before, kept := Now(), disk;
        var more := WriteItem(parts[i], owner, name);
        KeptAllTwice(old(disk), kept, disk);
        ProgressNext(store, nameBy, repo, old(Now()), before, Now(), owner, parts, i);
        if more.Err? { return more; }
        SoFarNext(repo, parts, i, items, old(Log(written, owner)), Log(before.written, owner), Log(written, owner));
        items := items + more.value;
      }
      SoFarAll(repo, parts, items, old(Log(written, owner)), Log(written, owner));
      return Ok(items);
    }

    function NameOf(desc: Entry, doc: Blob, fallback: string): string
      requires doc.Doc?
    {
      var own := if nameBy in desc.annotations then desc.annotations[nameBy] else Note(doc.annotations, nameBy);
      if own != "" then own else if fallback != "" then fallback else Short(desc.digest)
    }

    /** artifact: one index or manifest into its own directory, and what is mounted into it into theirs. */
    method Artifact(desc: Entry, fallback: string) returns (result: Result<string, Error>)
      requires Consistent(Now())
      modifies this
      decreases store.Keys - seen, 1
      ensures Consistent(Now()) && Grew(old(Now()), Now(), {})
      ensures Needed(store, nameBy, old(Now()), Now(), {desc.digest})
      ensures result.Ok? ==> AllFinished(store, nameBy, repo, old(Now()), Now()) && desc.digest in seen
      ensures KeptAll(old(disk), disk)
      ensures result.Ok? && desc.digest !in old(seen) ==>
        Here(desc.digest, result.value) && taken[desc.digest] == desc.media
      ensures old(AllPut()) ==> AllPut()
      ensures result.Ok? ==>
        desc.digest in store && store[desc.digest].Doc? && Called(store, nameBy, desc, fallback, result.value)
      ensures result.Ok? && desc.digest !in old(seen) ==> ConfigPut(store, desc, result.value, disk)
    {
      var d := desc.digest;
      var doc := Fetch(store, d);
      if doc.Err? { return Err(doc.error); }
      var name := NameOf(desc, doc.value, fallback);
      if d in seen { return Ok(name); }
      result := Build(desc, doc.value, name);
    }

    method Build(desc: Entry, doc: Blob, name: string) returns (result: Result<string, Error>)
      requires Consistent(Now())
      requires desc.digest !in seen && Fetch(store, desc.digest) == Ok(doc)
      modifies this
      decreases store.Keys - seen, 0
      ensures Consistent(Now()) && Grew(old(Now()), Now(), {})
      ensures Needed(store, nameBy, old(Now()), Now(), {desc.digest})
      ensures result.Ok? ==> AllFinished(store, nameBy, repo, old(Now()), Now()) && desc.digest in seen
      ensures KeptAll(old(disk), disk)
      ensures result.Ok? ==> Here(desc.digest, result.value) && taken[desc.digest] == desc.media
      ensures old(AllPut()) ==> AllPut()
      ensures result.Ok? ==> result.value == name && ConfigPut(store, desc, name, disk)
    {
      ghost var start, there := Now(), disk;
      Enter(desc, name);
      ghost var entered, begun := Now(), disk;
      var items := WriteDoc(desc, doc, name);
      NeededFrom(store, nameBy, start, Now(), desc);
      GrewFrom(start, Now(), desc);
      ghost var filled := disk;
      KeptAllTwice(there, begun, filled);
      if items.Err? { return Err(items.error); }
      result := Seal(desc, name, items.value, start, entered);
      KeptAllTwice(there, filled, disk);
    }

    /** A directory for an artifact seen for the first time. */
    method Enter(desc: Entry, name: string)
      requires Consistent(Now()) && desc.digest !in seen
      modifies this`seen, this`taken, this`disk
      ensures Now() == Entered(old(Now()), desc) && Consistent(Now()) && Log(written, desc.digest) == []
      ensures KeptAll(old(disk), disk)
    {
      seen := seen + {desc.digest};
      taken := taken[desc.digest := desc.media];
      disk := Disk(disk.dirs[name := Dir(name)], disk.puts);
    }

    /** The pack file, last: with it the artifact is finished. */
    method Seal(desc: Entry, name: string, items: seq<Item>, ghost a: Progress, ghost entered: Progress)
      returns (result: Result<string, Error>)
      requires desc.digest !in a.seen && entered == Entered(a, desc) && Consistent(a)
      requires Grew(entered, Now(), {desc.digest}) && Consistent(Now()) && Grew(a, Now(), {})
      requires AllFinished(store, nameBy, repo, entered, Now())
      requires Mounted(store, nameBy, desc.media, desc.digest) <= seen && Here(desc.digest, name)
      requires ListedAs(store, nameBy, desc.media, desc.digest) == Ok(Log(written, desc.digest))
      requires items == PackItems(store, nameBy, repo, desc.media, desc.digest)
      modifies this`disk, this`packs, this`built
      ensures Consistent(Now()) && Grew(a, Now(), {}) && KeptAll(old(disk), disk)
      ensures seen == old(seen) && taken == old(taken)
      ensures result.Ok? ==> AllFinished(store, nameBy, repo, a, Now())
      ensures result.Ok? ==> Here(desc.digest, result.value)
      ensures old(AllPut()) && result.Ok? ==> AllPut()
      ensures result.Err? ==> packs == old(packs)
      ensures result.Ok? ==> result.value == name
    {
      ghost var filled := Now();
      var wrote := WritePack(desc.digest, name, PACKFILE, items);
      if wrote.Err? { return Err(wrote.error); }
      Finishes(store, nameBy, repo, a, entered, filled, desc);
      return Ok(name);
    }

    method WritePack(d: Digest, name: string, rel: string, items: seq<Item>) returns (result: Result<(), Error>)
      requires Here(d, name)
      modifies this`disk, this`packs, this`built
      ensures KeptAll(old(disk), disk) && Here(d, name)
      ensures result.Ok? ==> Write(old(Dir(name)), rel, marshal(items)) == Ok(Dir(name))
      ensures Now() == if result.Ok? then old(Now()).(built := old(built) + [d], packs := old(packs)[d := items]) else old(Now())
      ensures result.Ok? ==> (name, Clean(rel), marshal(items)) in disk.puts
    {
      result := WriteAt(name, rel, marshal(items));
      LandedStays(Log(written, d), name, old(disk), disk);
      if result.Ok? {
        packs := packs[d := items];
        built := built + [d];
      }
    }

    /** What an artifact's document is written as. */
    method WriteDoc(desc: Entry, doc: Blob, name: string) returns (result: Result<seq<Item>, Error>)
      requires Consistent(Now())
      requires desc.digest in seen && desc.digest in taken && taken[desc.digest] == desc.media
      requires Log(written, desc.digest) == [] && Fetch(store, desc.digest) == Ok(doc)
      modifies this
      decreases store.Keys - seen, 4
      ensures Consistent(Now()) && Grew(old(Now()), Now(), {desc.digest})
      ensures Needed(store, nameBy, old(Now()), Now(), Mounted(store, nameBy, desc.media, desc.digest))
      ensures result.Ok? ==> AllFinished(store, nameBy, repo, old(Now()), Now())
      ensures result.Ok? ==> result.value == PackItems(store, nameBy, repo, desc.media, desc.digest)
      ensures result.Ok? ==> Mounted(store, nameBy, desc.media, desc.digest) <= seen
      ensures result.Ok? ==> ListedAs(store, nameBy, desc.media, desc.digest) == Ok(Log(written, desc.digest))
      ensures KeptAll(old(disk), disk) && Here(desc.digest, name)
      ensures old(AllPut()) ==> AllPut()
      ensures result.Ok? ==> ConfigPut(store, desc, name, disk)
    {
      var read := Read(store, desc);
      if read.Err? { return Err(read.error); }
      if desc.media == Index {
        var parts := Classify(doc.members);
        if parts.Err? { return Err(parts.error); }
        PartsOf(store, nameBy, desc.digest, parts.value);
        AfterNone(PartFiles(parts.value));
        result := WriteParts(parts.value, desc.digest, name);
      } else {
        AfterNone(LayerFiles(doc.layers));
        result := WriteManifest(doc, desc.digest, name, CONFIG);
        OthersKept(old(written), written, desc.digest);
      }
    }

    method WriteManifest(doc: Blob, owner: Digest, name: string, rel: string) returns (result: Result<seq<Item>, Error>)
      requires doc.Doc?
      modifies this`disk, this`written
      ensures result.Ok? ==> result.value == LayerItems(doc.layers)
      ensures result.Ok? ==> After(old(Log(written, owner)), LayerFiles(doc.layers)) == Ok(Log(written, owner))
      ensures written - {owner} == old(written) - {owner}
      ensures KeptAll(old(disk), disk) && (old(Here(owner, name)) ==> Here(owner, name))
      ensures result.Ok? && HasOwnConfig(doc) ==> (name, Clean(rel), doc.config.digest) in disk.puts
    {
      if !IsEmptyConfig(doc.config) {
        var wrote := WriteConfig(owner, name, rel, doc.config.digest);
        if wrote.Err? { return Err(wrote.error); }
      }
      ghost var tree := Dir(name);
      result := WriteFiles(owner, doc.layers, name);
      ItemsWritten(doc.layers, tree);
    }
  }

  lemma TopIsClean(b: string)
    requires Name(b)
    ensures Clean(b) == b
  {
    IndexOfIs(b, '/', |b|);
    assert Split(b) == [b];
    CleanIsInside(b);
  }

  /** What an extraction puts beside the files lies at the top of the artifact's directory. */
  lemma ConfigAtTop()
    ensures Clean(CONFIG) == "config.json"
  {
    TopIsClean(CONFIG);
  }

  lemma ImageConfigAtTop()
    ensures Clean(IMAGE_CONFIG) == "image.json"
  {
    TopIsClean(IMAGE_CONFIG);
  }

  lemma PackFileAtTop()
    ensures Clean(PACKFILE) == "pack.yaml"
  {
    PackFileIsClean();
  }

  lemma ItemsWritten(layers: seq<Layer>, tree: Tree)
    ensures Packing.Files({}, layers, tree).Ok? ==> Packing.Files({}, layers, tree).value.items == LayerItems(layers)
  {
    if Packing.Files({}, layers, tree).Ok? { FilesItems({}, layers, tree); }
  }

  function Entered(a: Progress, desc: Entry): Progress {
    a.(seen := a.seen + {desc.digest}, taken := a.taken[desc.digest := desc.media])
  }

  lemma NeededFrom(store: Store, nameBy: string, a: Progress, b: Progress, desc: Entry)
    requires Needed(store, nameBy, Entered(a, desc), b, Mounted(store, nameBy, desc.media, desc.digest))
    requires Grew(Entered(a, desc), b, {desc.digest})
    ensures Needed(store, nameBy, a, b, {desc.digest})
  {
    assert Entered(a, desc).taken[desc.digest] == desc.media;
  }

  lemma GrewFrom(a: Progress, b: Progress, desc: Entry)
    requires desc.digest !in a.seen && Consistent(a) && Grew(Entered(a, desc), b, {desc.digest})
    ensures Grew(a, b, {})
  {
    forall d | d in a.taken ensures d in b.taken && b.taken[d] == a.taken[d] {
      assert Entered(a, desc).taken[d] == a.taken[d];
    }
  }

  lemma Finishes(store: Store, nameBy: string, repo: string, a: Progress, entered: Progress, b: Progress, desc: Entry)
    requires desc.digest !in a.seen && entered == Entered(a, desc) && Consistent(a)
    requires Grew(entered, b, {desc.digest}) && Consistent(b) && AllFinished(store, nameBy, repo, entered, b)
    requires Mounted(store, nameBy, desc.media, desc.digest) <= b.seen
    requires ListedAs(store, nameBy, desc.media, desc.digest) == Ok(Log(b.written, desc.digest))
    ensures var d := desc.digest;
      var c := b.(built := b.built + [d], packs := b.packs[d := PackItems(store, nameBy, repo, desc.media, d)]);
      Consistent(c) && Grew(a, c, {}) && AllFinished(store, nameBy, repo, a, c)
  {
    var d := desc.digest;
    var c := b.(built := b.built + [d], packs := b.packs[d := PackItems(store, nameBy, repo, desc.media, d)]);
    GrewFrom(a, b, desc);
    assert entered.taken[d] == desc.media && b.taken[d] == desc.media;
    assert d !in b.built;
    assert Finished(store, nameBy, repo, c, d);
    forall e | e in c.seen - a.seen && e != d ensures Finished(store, nameBy, repo, c, e) {
      assert Finished(store, nameBy, repo, b, e);
    }
  }

  function ArtifactsOf(parts: seq<Part>): set<Digest> {
    set p | p in parts && p.kind.Artifact? :: p.entry.digest
  }

  lemma PartFilesOne(p: Part, log: seq<PackedFile>)
    ensures After(log, PartFiles([p])) == if p.kind.Files? then After(log, LayerFiles(p.layers)) else Ok(log)
  {
    assert [p][1..] == [] && log + [] == log;
    if p.kind.Files? && LayerFiles(p.layers).Ok? {
      assert LayerFiles(p.layers).value + [] == LayerFiles(p.layers).value;
    }
  }

  /** What the parts before i come to, and what those from i on still add. */
  ghost predicate SoFar(repo: string, parts: seq<Part>, i: nat, items: seq<Item>,
                        was: seq<PackedFile>, now: seq<PackedFile>)
    requires i <= |parts|
  {
    && items + PartsItems(repo, parts[i..]) == PartsItems(repo, parts)
    && After(now, PartFiles(parts[i..])) == After(was, PartFiles(parts))
  }

  lemma SoFarNone(repo: string, parts: seq<Part>, log: seq<PackedFile>)
    ensures SoFar(repo, parts, 0, [], log, log)
  {
    assert parts[0..] == parts && [] + PartsItems(repo, parts) == PartsItems(repo, parts);
  }

  lemma SoFarAll(repo: string, parts: seq<Part>, items: seq<Item>, was: seq<PackedFile>, now: seq<PackedFile>)
    requires SoFar(repo, parts, |parts|, items, was, now)
    ensures items == PartsItems(repo, parts) && After(was, PartFiles(parts)) == Ok(now) && parts[..|parts|] == parts
  {
    assert parts[|parts|..] == [] && items + [] == items;
    AfterDone(now);
  }

  lemma SoFarNext(repo: string, parts: seq<Part>, i: nat, items: seq<Item>,
                  was: seq<PackedFile>, now: seq<PackedFile>, next: seq<PackedFile>)
    requires i < |parts| && SoFar(repo, parts, i, items, was, now) && After(now, PartFiles([parts[i]])) == Ok(next)
    ensures SoFar(repo, parts, i + 1, items + PartItems(repo, parts[i]), was, next)
    ensures ArtifactsOf(parts[..i + 1]) == ArtifactsOf(parts[..i]) + ArtifactsOf([parts[i]])
  {
    var p, rest := parts[i], parts[i + 1..];
    assert parts[i..] == [p] + rest && parts[..i + 1] == parts[..i] + [p];
    Regroup(items, PartItems(repo, p), PartsItems(repo, rest));
    FilesOfNext(p, rest, now);
  }

  lemma FilesOfNext(p: Part, rest: seq<Part>, log: seq<PackedFile>)
    requires After(log, PartFiles([p])).Ok?
    ensures After(log, PartFiles([p] + rest)) == After(After(log, PartFiles([p])).value, PartFiles(rest))
  {
    assert ([p] + rest)[1..] == rest;
    PartFilesOne(p, log);
    if p.kind.Files? {
      AfterBoth(log, LayerFiles(p.layers).value, PartFiles(rest));
    }
  }

  lemma ProgressNext(store: Store, nameBy: string, repo: string,
                     a: Progress, b: Progress, c: Progress, owner: Digest, parts: seq<Part>, i: nat)
    requires i < |parts| && owner in a.seen && Grew(a, b, {owner}) && Grew(b, c, {owner})
    requires Needed(store, nameBy, a, b, ArtifactsOf(parts)) && Needed(store, nameBy, b, c, ArtifactsOf([parts[i]]))
    ensures Grew(a, c, {owner}) && Needed(store, nameBy, a, c, ArtifactsOf(parts))
    ensures AllFinished(store, nameBy, repo, a, b) && AllFinished(store, nameBy, repo, b, c) ==>
      AllFinished(store, nameBy, repo, a, c)
  {
    GrewTwice(a, b, c, {owner});
    if AllFinished(store, nameBy, repo, a, b) && AllFinished(store, nameBy, repo, b, c) {
      FinishedStays(store, nameBy, repo, a, b, c, {owner});
    }
    assert parts[i] in parts;
    assert ArtifactsOf([parts[i]]) <= ArtifactsOf(parts);
  }

  /** The artifacts among an index's parts are those mounted into it. */
  lemma PartsOf(store: Store, nameBy: string, d: Digest, parts: seq<Part>)
    requires d in store && store[d].Doc? && Parts(store, nameBy, store[d].members) == Ok(parts)
    ensures ArtifactsOf(parts) == Mounted(store, nameBy, Index, d)
  {
    var members := store[d].members;
    PartsAre(store, nameBy, members);
    forall m | m in members && KindOf(store, nameBy, m) == Ok(Artifact) ensures m.digest in ArtifactsOf(parts) {
      var i :| 0 <= i < |members| && members[i] == m;
      assert parts[i] in parts;
    }
  }

  lemma OthersKept(a: map<Digest, seq<PackedFile>>, b: map<Digest, seq<PackedFile>>, owner: Digest)
    requires b - {owner} == a - {owner}
    ensures forall d | d != owner :: Log(b, d) == Log(a, d)
    ensures b.Keys <= a.Keys + {owner}
  {
    forall d | d != owner ensures Log(b, d) == Log(a, d) && (d in b ==> d in a) {
      assert d in b <==> d in b - {owner};
      assert d in a <==> d in a - {owner};
      if d in b { assert (b - {owner})[d] == b[d] && (a - {owner})[d] == a[d]; }
    }
  }

  lemma FilesNext(items: seq<Item>, dirs: set<string>, layers: seq<Layer>, tree: Tree, next: Tree)
    requires layers != [] && LayerPath(layers[0]).Ok?
    requires Write(tree, LayerPath(layers[0]).value, layers[0].digest) == Ok(next)
    ensures var l := layers[0];
      Resumed(items, Packing.Files(dirs, layers, tree)) ==
      Resumed(items + ItemOf(dirs, LayerPath(l).value, l),
              Packing.Files(Subdirs(dirs, l), layers[1..], next))
  {
    var l := layers[0];
    ResumedBoth(items, ItemOf(dirs, LayerPath(l).value, l),
                Packing.Files(Subdirs(dirs, l), layers[1..], next));
  }

  lemma LayerFilesNext(noted: seq<PackedFile>, layers: seq<Layer>)
    requires layers != [] && LayerPath(layers[0]).Ok?
    ensures After(noted, LayerFiles(layers)) ==
      After(noted + [PackedFile(LayerPath(layers[0]).value, layers[0])], LayerFiles(layers[1..]))
  {
    AfterBoth(noted, [PackedFile(LayerPath(layers[0]).value, layers[0])], LayerFiles(layers[1..]));
  }

  lemma FilesDone(items: seq<Item>, dirs: set<string>, tree: Tree)
    ensures Resumed(items, Packing.Files(dirs, [], tree)) == Ok(Extracted(tree, items))
  {
    assert items + [] == items;
  }

  lemma AfterDone(log: seq<PackedFile>)
    ensures After(log, LayerFiles([])) == Ok(log) && After(log, PartFiles([])) == Ok(log)
  {
    assert log + [] == log;
  }

  lemma ResumedNone(rest: Result<Extracted, Error>)
    ensures Resumed([], rest) == rest
  {
    if rest.Ok? { assert [] + rest.value.items == rest.value.items; }
  }

  lemma ResumedBoth(done: seq<Item>, next: seq<Item>, rest: Result<Extracted, Error>)
    ensures Resumed(done, Resumed(next, rest)) == Resumed(done + next, rest)
  {
    if rest.Ok? { assert done + (next + rest.value.items) == (done + next) + rest.value.items; }
  }

  /** A set of digests closed under mounting, holding the root, and no larger than any other such set. */
  ghost predicate LeastClosed(store: Store, nameBy: string, taken: map<Digest, Media>, root: Digest, s: set<Digest>) {
    && root in s && Closed(store, nameBy, taken, s)
    && forall other: set<Digest> | Closed(store, nameBy, taken, other) && root in other :: s <= other
  }

  /** Everything is there: exactly the artifacts mounted into one another from the root are built, each
      once, as what they were first taken for; each one's pack file names its items; and the files written
      for each, the root's among them, are those a listing of it shows, in order. */
  ghost predicate Whole(store: Store, nameBy: string, repo: string, b: Progress, root: Entry) {
    && b.taken.Keys == b.seen && LeastClosed(store, nameBy, b.taken, root.digest, b.seen)
    && (forall d :: d in b.built <==> d in b.seen)
    && (forall i, j | 0 <= i < j < |b.built| :: b.built[i] != b.built[j])
    && (forall d | d in b.seen :: Finished(store, nameBy, repo, b, d))
    && b.taken[root.digest] == root.media && Listed(store, nameBy, root) == Ok(Log(b.written, root.digest))
  }

  const START := Progress({}, map[], [], map[], map[])

  lemma WholeFromFinished(store: Store, nameBy: string, repo: string, b: Progress, root: Entry)
    requires Consistent(b) && root.digest in b.seen && b.taken[root.digest] == root.media
    requires AllFinished(store, nameBy, repo, START, b) && Needed(store, nameBy, START, b, {root.digest})
    ensures Whole(store, nameBy, repo, b, root)
  {
    AllAreFinished(store, nameBy, repo, b);
    assert Finished(store, nameBy, repo, b, root.digest);
    LeastFromNeeded(store, nameBy, b, root.digest);
    ListedAsRoot(store, nameBy, root);
  }

  lemma AllAreFinished(store: Store, nameBy: string, repo: string, b: Progress)
    requires AllFinished(store, nameBy, repo, START, b)
    ensures forall d | d in b.seen :: Finished(store, nameBy, repo, b, d)
    ensures Closed(store, nameBy, b.taken, b.seen) && forall d | d in b.seen :: d in b.built
  {
    forall d | d in b.seen ensures Finished(store, nameBy, repo, b, d) {
      assert d in b.seen - START.seen;
    }
  }

  lemma LeastFromNeeded(store: Store, nameBy: string, b: Progress, root: Digest)
    requires Closed(store, nameBy, b.taken, b.seen) && root in b.seen && Needed(store, nameBy, START, b, {root})
    ensures LeastClosed(store, nameBy, b.taken, root, b.seen)
  {
    forall s: set<Digest> | Closed(store, nameBy, b.taken, s) && root in s ensures b.seen <= s {
      assert {root} <= s && START.seen + s == s;
    }
  }

  /** A listing looks at no more of a reference than its media and its digest. */
  lemma ListedAsRoot(store: Store, nameBy: string, root: Entry)
    ensures Listed(store, nameBy, root) == ListedAs(store, nameBy, root.media, root.digest)
  {
  }

  /** Extract, from the resolved root. It ends on any finite store, loops included. */
  method Extract(store: Store, options: string, repo: string, imageConfig: bool, marshal: seq<Item> -> Digest, root: Entry)
    returns (e: Extractor, result: Result<string, Error>)
    ensures fresh(e)
    ensures result.Ok? ==> Whole(store, if options == "" then TITLE else options, repo, e.Now(), root)
    ensures result.Ok? ==> e.Here(root.digest, result.value) && Traced(e.disk)
    ensures result.Ok? ==> e.AllPut() && ConfigPut(store, root, result.value, e.disk)
    ensures result.Ok? ==> root.digest in store && store[root.digest].Doc?
    ensures result.Ok? ==> Called(store, if options == "" then TITLE else options, root, AfterSlash(repo), result.value)
  {
    e := new Extractor(store, if options == "" then TITLE else options, repo, imageConfig, marshal);
    ghost var empty := e.disk;
    assert Traced(empty);
    result := e.Artifact(root, AfterSlash(repo));
    if result.Ok? {
      assert KeptAll(empty, e.disk);
      WholeFromFinished(store, e.nameBy, repo, e.Now(), root);
    }
  }
}
