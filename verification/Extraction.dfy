/**
 * Extracting an artifact and everything mounted into it, a directory each, and listing its
 * files (pkg/extract/extract.go, pkg/extract/file.go).
 */
module Extraction {
  import opened Wrappers
  import opened Packing
  import opened RoundTrip

  datatype Media = Index | Manifest | Other

  datatype Entry = Entry(media: Media, digest: Digest, artifactType: string, platform: string,
                         annotations: map<string, string>)

  datatype Config = Config(media: string, digest: Digest)

  // A document as any reader of it sees it: what it has no field for is empty.
  datatype Blob = Bytes | Doc(typ: string, annotations: map<string, string>, members: seq<Entry>,
                              config: Config, layers: seq<Layer>)

  type Store = map<Digest, Blob>

  datatype Kind = Files | Image | Artifact

  datatype Part = Part(entry: Entry, kind: Kind, layers: seq<Layer>)

  datatype PackedFile = PackedFile(path: string, layer: Layer)

  predicate IsEmptyConfig(c: Config) {
    c.digest == EMPTY_CONFIG || c.media == "application/vnd.oci.empty.v1+json"
  }

  function Fetch(store: Store, d: Digest): Result<Blob, Error> {
    if d in store && store[d].Doc? then Ok(store[d]) else Err(Missing)
  }

  /** read: only what the descriptor says is an index or a manifest is an artifact. */
  function Read(store: Store, desc: Entry): Result<Blob, Error> {
    if desc.media == Other then Err(NotAnArtifact) else Fetch(store, desc.digest)
  }

  /** What comes first, and then the rest, unless that fails. */
  function After<T>(done: seq<T>, rest: Result<seq<T>, Error>): Result<seq<T>, Error> {
    match rest
    case Err(e) => Err(e)
    case Ok(more) => Ok(done + more)
  }

  lemma AfterNone<T>(rest: Result<seq<T>, Error>)
    ensures After([], rest) == rest
  {
    if rest.Ok? { assert [] + rest.value == rest.value; }
  }

  lemma AfterBoth<T>(done: seq<T>, next: seq<T>, rest: Result<seq<T>, Error>)
    ensures After(done, After(next, rest)) == After(done + next, rest)
  {
    if rest.Ok? { assert done + (next + rest.value) == (done + next) + rest.value; }
  }

  // ---------- what the members of an index are ----------

  /** Only images, at least one, and attestations: from here on, images seen so far. */
  function OnlyImages(store: Store, members: seq<Entry>, images: nat): Result<bool, Error> {
    if members == [] then Ok(images > 0)
    else
      var c := members[0];
      if c.media == Index then Ok(false)
      else if c.platform == "unknown/unknown" then OnlyImages(store, members[1..], images)
      else
        match Fetch(store, c.digest)
        case Err(e) => Err(e)
        case Ok(man) =>
          if IsEmptyConfig(man.config) then Ok(false) else OnlyImages(store, members[1..], images + 1)
  }

  function KindOf(store: Store, nameBy: string, m: Entry): Result<Kind, Error> {
    match Fetch(store, m.digest)
    case Err(e) => Err(e)
    case Ok(doc) =>
      if m.media == Index then
        match OnlyImages(store, doc.members, 0)
        case Err(e) => Err(e)
        case Ok(image) => Ok(if image then Image else Artifact)
      else if !IsEmptyConfig(doc.config) then Ok(Image)
      else if Note(m.annotations, nameBy) != "" || Note(doc.annotations, nameBy) != "" then Ok(Artifact)
      else Ok(Files)
  }

  function PartOf(store: Store, nameBy: string, m: Entry): Result<Part, Error> {
    match KindOf(store, nameBy, m)
    case Err(e) => Err(e)
    case Ok(kind) => Ok(Part(m, kind, if m.media == Index then [] else store[m.digest].layers))
  }

  function Parts(store: Store, nameBy: string, members: seq<Entry>): Result<seq<Part>, Error> {
    if members == [] then Ok([])
    else
      match PartOf(store, nameBy, members[0])
      case Err(e) => Err(e)
      case Ok(p) => After([p], Parts(store, nameBy, members[1..]))
  }

  lemma {:induction false} PartsAre(store: Store, nameBy: string, members: seq<Entry>)
    requires Parts(store, nameBy, members).Ok?
    ensures var parts := Parts(store, nameBy, members).value;
      |parts| == |members| && forall i | 0 <= i < |members| :: PartOf(store, nameBy, members[i]) == Ok(parts[i])
  {
    if members != [] {
      PartsAre(store, nameBy, members[1..]);
    }
  }

  // ---------- listing ----------

  function LayerFiles(layers: seq<Layer>): Result<seq<PackedFile>, Error> {
    if layers == [] then Ok([])
    else
      match LayerPath(layers[0])
      case Err(e) => Err(e)
      case Ok(rel) => After([PackedFile(rel, layers[0])], LayerFiles(layers[1..]))
  }

  function PartFiles(parts: seq<Part>): Result<seq<PackedFile>, Error> {
    if parts == [] then Ok([])
    else if !parts[0].kind.Files? then PartFiles(parts[1..])
    else
      match LayerFiles(parts[0].layers)
      case Err(e) => Err(e)
      case Ok(files) => After(files, PartFiles(parts[1..]))
  }

  function Listed(store: Store, nameBy: string, desc: Entry): Result<seq<PackedFile>, Error> {
    match Read(store, desc)
    case Err(e) => Err(e)
    case Ok(doc) =>
      if desc.media == Manifest then LayerFiles(doc.layers)
      else
        match Parts(store, nameBy, doc.members)
        case Err(e) => Err(e)
        case Ok(parts) => PartFiles(parts)
  }

  // ---------- the pack file written back ----------

  function MountedItem(repo: string, m: Entry): Item {
    Item("oci://" + repo + "@" + m.digest, "", m.platform, Strip(m.annotations))
  }

  /** A built member's type and platform sit on the member, not on its layers. */
  function Filled(item: Item, m: Entry): Item {
    item.(typ := if item.typ == "" then m.artifactType else item.typ,
          platform := if item.platform == "" then m.platform else item.platform)
  }

  function FilledAll(items: seq<Item>, m: Entry): seq<Item> {
    seq(|items|, i requires 0 <= i < |items| => Filled(items[i], m))
  }

  function LayerItems(layers: seq<Layer>): seq<Item> {
    ItemsOf({}, layers)
  }

  function PartItems(repo: string, p: Part): seq<Item> {
    if p.kind.Files? then FilledAll(LayerItems(p.layers), p.entry) else [MountedItem(repo, p.entry)]
  }

  function PartsItems(repo: string, parts: seq<Part>): seq<Item> {
    if parts == [] then [] else PartItems(repo, parts[0]) + PartsItems(repo, parts[1..])
  }

  function PackItems(store: Store, nameBy: string, repo: string, media: Media, d: Digest): seq<Item> {
    if d !in store || store[d].Bytes? then []
    else if media == Manifest then LayerItems(store[d].layers)
    else
      match Parts(store, nameBy, store[d].members)
      case Err(_) => []
      case Ok(parts) => PartsItems(repo, parts)
  }

  // ---------- mounted artifacts ----------

  /** The digests of the artifacts mounted into an artifact. */
  function Mounted(store: Store, nameBy: string, media: Media, d: Digest): set<Digest> {
    if media == Index && d in store && store[d].Doc? then
      set m | m in store[d].members && KindOf(store, nameBy, m) == Ok(Artifact) :: m.digest
    else {}
  }

  // ---------- the order of a listing ----------

  /** Byte by byte, a path that another continues coming first. */
  predicate Before(a: string, b: string) {
    b != "" && (a == "" || (if a[0] == b[0] then Before(a[1..], b[1..]) else a[0] < b[0]))
  }

  predicate Ascending(paths: seq<string>) {
    forall i, j | 0 <= i < j < |paths| :: !Before(paths[j], paths[i])
  }

  function PathsOf(files: seq<PackedFile>): seq<string> {
    seq(|files|, i requires 0 <= i < |files| => files[i].path)
  }

  /** A listing of layers is the layers, in their order, each at its place. */
  lemma {:induction false} LayerFilesAre(layers: seq<Layer>)
    requires LayerFiles(layers).Ok?
    ensures var files := LayerFiles(layers).value;
      |files| == |layers| &&
      forall i | 0 <= i < |layers| :: files[i].layer == layers[i] && LayerPath(layers[i]) == Ok(files[i].path)
  {
    if layers != [] {
      LayerFilesAre(layers[1..]);
      assert forall i | 0 < i < |layers| :: layers[i] == layers[1..][i - 1];
    }
  }

  /** Where a packed layer goes; nowhere if it may not be extracted. */
  function PathOf(l: Layer): string {
    match LayerPath(l) { case Err(_) => "" case Ok(p) => p }
  }

  function LayerPaths(layers: seq<Layer>): seq<string> {
    seq(|layers|, i requires 0 <= i < |layers| => PathOf(layers[i]))
  }

  /** The layers that are an artifact's own: a manifest's, or those of the members built from files. */
  function OwnLayers(store: Store, nameBy: string, desc: Entry): seq<Layer>
    requires Listed(store, nameBy, desc).Ok?
  {
    if desc.media == Manifest then store[desc.digest].layers
    else PartLayers(Parts(store, nameBy, store[desc.digest].members).value)
  }

  function PartLayers(parts: seq<Part>): seq<Layer> {
    if parts == [] then []
    else (if parts[0].kind.Files? then parts[0].layers else []) + PartLayers(parts[1..])
  }

  lemma {:induction false} LayerFilesAppend(a: seq<Layer>, b: seq<Layer>)
    requires LayerFiles(a).Ok?
    ensures LayerFiles(a + b) == After(LayerFiles(a).value, LayerFiles(b))
  {
    if a == [] {
      assert a + b == b;
      AfterNone(LayerFiles(b));
    } else {
      assert (a + b)[0] == a[0] && (a + b)[1..] == a[1..] + b;
      LayerFilesAppend(a[1..], b);
      AfterBoth([PackedFile(LayerPath(a[0]).value, a[0])], LayerFiles(a[1..]).value, LayerFiles(b));
    }
  }

  lemma {:induction false} PartFilesAre(parts: seq<Part>)
    requires PartFiles(parts).Ok?
    ensures LayerFiles(PartLayers(parts)) == PartFiles(parts)
  {
    if parts != [] {
      PartFilesAre(parts[1..]);
      if parts[0].kind.Files? {
        LayerFilesAppend(parts[0].layers, PartLayers(parts[1..]));
      } else {
        assert [] + PartLayers(parts[1..]) == PartLayers(parts[1..]);
      }
    }
  }

  /** What does not come before, chained. */
  lemma {:induction false} NotBeforeChains(a: string, b: string, c: string)
    requires !Before(b, a) && !Before(c, b)
    ensures !Before(c, a)
  {
    if a != "" && b != "" && c != "" && a[0] == b[0] == c[0] {
      NotBeforeChains(a[1..], b[1..], c[1..]);
    }
  }

  /** No layer goes to a place before that of the layer just ahead of it. */
  predicate NeighboursInOrder(layers: seq<Layer>) {
    forall n | 0 <= n < |layers| - 1 :: !Before(PathOf(layers[n + 1]), PathOf(layers[n]))
  }

  /** Neighbours in order put everything in order. */
  lemma {:induction false} NeighboursAscend(layers: seq<Layer>, i: nat, j: nat)
    requires i < j < |layers|
    requires NeighboursInOrder(layers)
    ensures !Before(PathOf(layers[j]), PathOf(layers[i]))
    decreases j
  {
    assert !Before(PathOf(layers[j - 1 + 1]), PathOf(layers[j - 1]));
    if i < j - 1 {
      NeighboursAscend(layers, i, j - 1);
      NotBeforeChains(PathOf(layers[i]), PathOf(layers[j - 1]), PathOf(layers[j]));
    }
  }

  lemma AscendsByNeighbours(layers: seq<Layer>)
    ensures Ascending(LayerPaths(layers)) <==> NeighboursInOrder(layers)
  {
    var paths := LayerPaths(layers);
    if NeighboursInOrder(layers) {
      forall i, j | 0 <= i < j < |paths| ensures !Before(paths[j], paths[i]) {
        NeighboursAscend(layers, i, j);
      }
    }
    if Ascending(paths) {
      forall n | 0 <= n < |layers| - 1 ensures !Before(PathOf(layers[n + 1]), PathOf(layers[n])) {
        assert !Before(paths[n + 1], paths[n]);
      }
    }
  }

  /** A listing is the paths of the artifact's own layers in their order, not sorted: it ascends if and only if
      no layer goes to a place before that of the layer packed just ahead of it. */
  lemma ListingAscendsIff(store: Store, nameBy: string, desc: Entry)
    requires Listed(store, nameBy, desc).Ok?
    ensures PathsOf(Listed(store, nameBy, desc).value) == LayerPaths(OwnLayers(store, nameBy, desc))
    ensures Ascending(PathsOf(Listed(store, nameBy, desc).value)) <==> NeighboursInOrder(OwnLayers(store, nameBy, desc))
  {
    var layers := OwnLayers(store, nameBy, desc);
    if desc.media != Manifest { PartFilesAre(Parts(store, nameBy, store[desc.digest].members).value); }
    LayerFilesAre(layers);
    assert PathsOf(Listed(store, nameBy, desc).value) == LayerPaths(layers);
    AscendsByNeighbours(layers);
  }

  function Titled(title: string): Layer {
    Layer("", "", "", "", map[TITLE := title])
  }

  /** It need not: two files packed as b and a are listed as b and a. */
  lemma ListedAsPacked(typ: string)
    ensures var store := map["d" := Doc(typ, map[], [], Config("", ""), [Titled("b"), Titled("a")])];
      var listed := Listed(store, TITLE, Entry(Manifest, "d", "", "", map[]));
      listed.Ok? && PathsOf(listed.value) == ["b", "a"] && !Ascending(PathsOf(listed.value))
  {
    TitledPath("b");
    TitledPath("a");
    var layers := [Titled("b"), Titled("a")];
    TwoListed(Titled("b"), Titled("a"), "b", "a");
    var paths := PathsOf(LayerFiles(layers).value);
    assert paths == ["b", "a"] && Before(paths[1], paths[0]);
  }

  lemma TwoListed(l: Layer, m: Layer, p: string, q: string)
    requires LayerPath(l) == Ok(p) && LayerPath(m) == Ok(q)
    ensures LayerFiles([l, m]) == Ok([PackedFile(p, l), PackedFile(q, m)])
  {
    assert [l, m][1..] == [m] && [m][1..] == [];
    assert LayerFiles([m]) == After([PackedFile(q, m)], LayerFiles([m][1..]));
    assert LayerFiles([m]).value == [PackedFile(q, m)];
    assert LayerFiles([l, m]) == After([PackedFile(p, l)], LayerFiles([l, m][1..]));
    assert LayerFiles([l, m]).value == [PackedFile(p, l), PackedFile(q, m)];
  }

  lemma TitledPath(title: string)
    requires |title| == 1 && title[0] != '/'
    ensures LayerPath(Titled(title)) == Ok(title)
  {
    assert TITLE[0] != SOURCE[0] && Source(Titled(title)) == "";
    assert title == [title[0]];
  }
}
