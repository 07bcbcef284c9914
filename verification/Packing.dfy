/**
 * Packing files and directories into the layers of a manifest (handlers.go, builder.go,
 * pusher.go), and writing the layers of a manifest back as files and a pack file
 * (pkg/extract/extract.go). Directory names are relative.
 */
module Packing {
  import opened Wrappers
  import opened Strings

  type Digest = string

  datatype Node = File(digest: Digest) | Directory
  type Tree = map<string, Node>

  datatype Item = Item(from: string, typ: string, platform: string, annotations: map<string, string>)
  datatype Layer = Layer(media: string, digest: Digest, artifactType: string, platform: string,
                         annotations: map<string, string>)

  datatype Error = NoItems | DoesNotExist | IsADirectory | NotADirectory | Unsupported | EscapesDirectory | Blocked
                 | Missing | NotAnArtifact

  /** What the machine decides: the order a directory is walked in and the media types of extensions. */
  datatype Host = Host(order: set<string> -> seq<string>, mime: string -> string)

  /** A walk's order depends on the names only, and visits them all. */
  ghost predicate Walks(host: Host) {
    forall names: set<string>, p: string :: p in host.order(names) <==> p in names
  }

  const FILE := "file://"
  const DIR := "dir://"
  const PACKFILE := "pack.yaml"

  const EMPTY_CONFIG: Digest := "sha256:44136fa355b3678a1146ad16f7e8649e94fb4fc21fe77e8310c060f61caaff8a"

  const TITLE := "org.opencontainers.image.title"
  const CREATED := "org.opencontainers.image.created"
  const REFNAME := "org.opencontainers.image.ref.name"
  const SOURCE := "io.arenadata.oci-packer.dir"

  // ---------- media types ----------

  predicate HasSuffix(s: string, suffix: string) {
    |suffix| <= |s| && s[|s| - |suffix|..] == suffix
  }

  /** filepath.Ext: from the last dot of the last path element. */
  function Ext(p: string): string {
    if p == "" || EndsWith(p, '/') then ""
    else if EndsWith(p, '.') then "."
    else
      var e := Ext(p[..|p| - 1]);
      if e == "" then "" else e + [p[|p| - 1]]
  }

  function ResolveFileMediaType(mime: string -> string, p: string): string {
    if HasSuffix(p, ".tar.gz") then "application/vnd.oci.image.layer.v1.tar+gzip"
    else if HasSuffix(p, ".tar.zst") then "application/vnd.oci.image.layer.v1.tar+zstd"
    else
      var ext := Ext(p);
      if ext == ".tar" then "application/vnd.oci.image.layer.v1.tar"
      else if ext == ".tgz" then "application/vnd.oci.image.layer.v1.tar+gzip"
      else if ext != "" && mime(ext) != "" then mime(ext)[..IndexOf(mime(ext), ';')]
      else "application/octet-stream"
  }

  /** The position after the last slash. */
  function SlashEnd(p: string): (i: nat)
    ensures i <= |p| && (i > 0 ==> p[i - 1] == '/') && forall j | i <= j < |p| :: p[j] != '/'
  {
    if p == "" || EndsWith(p, '/') then |p| else SlashEnd(p[..|p| - 1])
  }

  /** What follows the last slash. */
  function AfterSlash(p: string): string {
    p[SlashEnd(p)..]
  }

  /** path.Base. */
  function Base(p: string): string {
    if p == "" then "."
    else if p == "/" then "/"
    else if EndsWith(p, '/') then Base(p[..|p| - 1])
    else AfterSlash(p)
  }

  lemma BaseOfBase(p: string)
    requires p != "" && !EndsWith(p, '/')
    ensures Base(Base(p)) == Base(p) && '/' !in Base(p)
  {
    var b := AfterSlash(p);
    NameAfterSlash(p);
    NoSlash(b);
    BaseIs(p);
    BaseIs(b);
  }

  lemma BaseIs(p: string)
    requires p != "" && !EndsWith(p, '/')
    ensures Base(p) == AfterSlash(p)
  {
    assert p != "/";
  }

  lemma NameAfterSlash(p: string)
    requires p != "" && !EndsWith(p, '/')
    ensures AfterSlash(p) != "" && '/' !in AfterSlash(p)
  {
    var i := SlashEnd(p);
    forall j | 0 <= j < |AfterSlash(p)| ensures AfterSlash(p)[j] != '/' {
      assert AfterSlash(p)[j] == p[i + j];
    }
  }

  lemma NoSlash(b: string)
    requires '/' !in b
    ensures AfterSlash(b) == b && !EndsWith(b, '/')
  {
    forall j | 0 <= j < |b| ensures b[j] != '/' {
      assert b[j] in b;
    }
    assert b[0..] == b;
  }

  lemma {:induction false} ExtBelow(above: string, b: string)
    requires '/' !in b && (above == "" || EndsWith(above, '/'))
    ensures Ext(above + b) == Ext(b)
  {
    if b == "" {
      assert above + b == above;
    } else {
      assert (above + b)[..|above + b| - 1] == above + b[..|b| - 1];
      ExtBelow(above, b[..|b| - 1]);
    }
  }

  lemma SuffixBelow(above: string, b: string, suffix: string)
    requires '/' !in suffix && (above == "" || EndsWith(above, '/'))
    ensures HasSuffix(above + b, suffix) == HasSuffix(b, suffix)
  {
    var s := above + b;
    if |suffix| <= |b| {
      assert s[|s| - |suffix|..] == b[|b| - |suffix|..];
    } else if |suffix| <= |s| {
      var k := |suffix| - |b| - 1;
      assert suffix[k] in suffix;
      assert s[|s| - |suffix|..][k] == above[|above| - 1] == '/';
    }
  }

  lemma MediaBelow(mime: string -> string, above: string, b: string)
    requires '/' !in b && (above == "" || EndsWith(above, '/'))
    ensures ResolveFileMediaType(mime, above + b) == ResolveFileMediaType(mime, b)
  {
    ExtBelow(above, b);
    SuffixBelow(above, b, ".tar.gz");
    SuffixBelow(above, b, ".tar.zst");
  }

  /** The media type of a file is that of its name: where the file lies does not matter. */
  lemma MediaOfBase(mime: string -> string, p: string)
    requires p != "" && !EndsWith(p, '/')
    ensures ResolveFileMediaType(mime, Base(p)) == ResolveFileMediaType(mime, p)
  {
    var i := SlashEnd(p);
    assert p == p[..i] + p[i..];
    MediaBelow(mime, p[..i], p[i..]);
  }

  // ---------- packing ----------

  function Note(a: map<string, string>, key: string): string {
    if key in a then a[key] else ""
  }

  predicate IsFile(from: string) { FILE <= from }
  predicate IsDir(from: string) { DIR <= from }

  /** fileHandler and pushFile: one layer, titled with the file's own name. */
  function FileLayer(host: Host, tree: Tree, item: Item): Result<Layer, Error> {
    var from := TrimPrefix(item.from, FILE);
    if from == "" || EndsWith(from, '/') || from !in tree then Err(DoesNotExist)
    else if tree[from].Directory? then Err(IsADirectory)
    else
      Ok(Layer(ResolveFileMediaType(host.mime, from), tree[from].digest,
               if item.typ == "" then ResolveFileMediaType(host.mime, from) else item.typ,
               "", item.annotations[TITLE := Base(from)]))
  }

  function DirName(item: Item): string {
    var d := TrimPrefix(item.from, DIR);
    if EndsWith(d, '/') then d[..|d| - 1] else d
  }

  /** The files below a directory: in the tree under clean names. */
  function Below(tree: Tree, dir: string): set<string> {
    set p | p in tree && tree[p].File? && Clean(p) == p && (dir + "/" <= p || (dir == "." && Inside(p)))
  }

  function WalkedLayer(host: Host, tree: Tree, item: Item, p: string): Layer
    requires p in tree && tree[p].File?
  {
    var named := TrimPrefix(item.from, DIR);
    var from := if EndsWith(named, '/') then named else named + "/";
    Layer(ResolveFileMediaType(host.mime, p), tree[p].digest, "", "",
          map[TITLE := TrimPrefix(p, from), SOURCE := DirName(item)])
  }

  /** walkDirHandler and pushFile: a layer for every file below, titled with its path below the directory.
      The item's own type and annotations are not used. */
  function DirLayers(host: Host, tree: Tree, item: Item): Result<seq<Layer>, Error>
    requires Walks(host)
  {
    var root := Clean(TrimPrefix(item.from, DIR));
    if TrimPrefix(item.from, DIR) == "" || (root !in tree && root != ".") then Err(DoesNotExist)
    else if root != "." && tree[root].File? then Err(NotADirectory)
    else
      var walk := host.order(Below(tree, root));
      Ok(seq(|walk|, i requires 0 <= i < |walk| =>
        assert walk[i] in walk; WalkedLayer(host, tree, item, walk[i])))
  }

  /** What a dir:// item says of type, platform and annotations makes no difference to its layers. */
  lemma DirItemSaysNothing(host: Host, tree: Tree, item: Item, other: Item)
    requires Walks(host) && IsDir(item.from) && other.from == item.from
    ensures DirLayers(host, tree, other) == DirLayers(host, tree, item)
  {
    var l, m := DirLayers(host, tree, item), DirLayers(host, tree, other);
    SameFound(host, tree, item, other);
    if l.Ok? {
      forall i | 0 <= i < |l.value| ensures m.value[i] == l.value[i] {
        SameLayerAt(host, tree, item, other, i);
      }
      assert m.value == l.value;
    }
  }

  lemma SameLayerAt(host: Host, tree: Tree, item: Item, other: Item, i: nat)
    requires Walks(host) && other.from == item.from && DirLayers(host, tree, item).Ok? && DirLayers(host, tree, other).Ok?
    requires i < |DirLayers(host, tree, item).value| == |DirLayers(host, tree, other).value|
    ensures DirLayers(host, tree, other).value[i] == DirLayers(host, tree, item).value[i]
  {
    var p := DirLayerAt(host, tree, item, i);
    var q := DirLayerAt(host, tree, other, i);
  }

  /** The i-th layer is that of the i-th file the walk visits. */
  lemma DirLayerAt(host: Host, tree: Tree, item: Item, i: nat) returns (p: string)
    requires Walks(host) && DirLayers(host, tree, item).Ok? && i < |DirLayers(host, tree, item).value|
    ensures var walk := host.order(Below(tree, Clean(TrimPrefix(item.from, DIR)))); i < |walk| && p == walk[i]
    ensures p in tree && tree[p].File? && DirLayers(host, tree, item).value[i] == WalkedLayer(host, tree, item, p)
  {
    var walk := host.order(Below(tree, Clean(TrimPrefix(item.from, DIR))));
    p := walk[i];
    assert p in walk;
  }

  lemma SameFound(host: Host, tree: Tree, item: Item, other: Item)
    requires Walks(host) && other.from == item.from
    ensures var l, m := DirLayers(host, tree, item), DirLayers(host, tree, other);
      if l.Ok? then m.Ok? && |m.value| == |l.value| else m == l
  {
  }

  function ItemLayers(host: Host, tree: Tree, item: Item): Result<seq<Layer>, Error>
    requires Walks(host)
  {
    if IsFile(item.from) then
      match FileLayer(host, tree, item)
      case Err(e) => Err(e)
      case Ok(l) => Ok([l])
    else if IsDir(item.from) then DirLayers(host, tree, item)
    else Err(Unsupported)
  }

  /** The layers of a pack: those of its items, in the pack file's order. */
  function Layers(host: Host, tree: Tree, items: seq<Item>): Result<seq<Layer>, Error>
    requires Walks(host)
  {
    if items == [] then Ok([])
    else
      match ItemLayers(host, tree, items[0])
      case Err(e) => Err(e)
      case Ok(first) =>
        match Layers(host, tree, items[1..])
        case Err(e) => Err(e)
        case Ok(more) => Ok(first + more)
  }

  function Pack(host: Host, tree: Tree, items: seq<Item>): Result<seq<Layer>, Error>
    requires Walks(host)
  {
    if items == [] then Err(NoItems) else Layers(host, tree, items)
  }

  // ---------- extracting ----------

  predicate TwoDots(s: string) {
    exists i :: 0 <= i < |s| - 1 && s[i] == '.' && s[i + 1] == '.'
  }

  function Short(d: Digest): string {
    var hex := if ':' in d then d[IndexOf(d, ':') + 1..] else d;
    if |hex| > 12 then hex[..12] else hex
  }

  function Title(l: Layer): string {
    if Note(l.annotations, TITLE) == "" then Short(l.digest) else Note(l.annotations, TITLE)
  }

  function Source(l: Layer): string {
    Note(l.annotations, SOURCE)
  }

  /** Where a layer's file goes, below the artifact's directory. */
  function LayerPath(l: Layer): Result<string, Error> {
    var rel := if Source(l) == "" then Title(l) else Clean(Source(l) + "/" + Title(l));
    if TwoDots(rel) || StartsWith(rel, '/') || StartsWith(Source(l), '/') then Err(EscapesDirectory) else Ok(rel)
  }

  function Ancestors(p: string): set<string> {
    set i | 0 <= i < |p| && p[i] == '/' :: p[..i]
  }

  /** Creates the directories above a file, and the file. */
  function Write(tree: Tree, rel: string, d: Digest): Result<Tree, Error> {
    var p := Clean(rel);
    if p == "." || (p in tree && tree[p].Directory?) || (exists a | a in Ancestors(p) :: a in tree && tree[a].File?)
    then Err(Blocked)
    else Ok((tree + map a | a in Ancestors(p) :: Directory)[p := File(d)])
  }

  function Strip(a: map<string, string>): map<string, string> {
    a - {CREATED, REFNAME, SOURCE}
  }

  /** The item a layer is written back as, unless its directory already is one. */
  function ItemOf(dirs: set<string>, rel: string, l: Layer): seq<Item> {
    if Source(l) == "" then
      [Item(FILE + rel, l.artifactType, l.platform, Strip(l.annotations) - {TITLE})]
    else if Source(l) in dirs then []
    else [Item(DIR + Source(l) + "/", l.artifactType, l.platform, map[])]
  }

  datatype Extracted = Extracted(tree: Tree, items: seq<Item>)

  function Subdirs(dirs: set<string>, l: Layer): set<string> {
    if Source(l) == "" then dirs else dirs + {Source(l)}
  }

  function Files(dirs: set<string>, layers: seq<Layer>, tree: Tree): Result<Extracted, Error>
    decreases |layers|
  {
    if layers == [] then Ok(Extracted(tree, []))
    else
      var l := layers[0];
      match LayerPath(l)
      case Err(e) => Err(e)
      case Ok(rel) =>
        match Write(tree, rel, l.digest)
        case Err(e) => Err(e)
        case Ok(written) =>
          match Files(Subdirs(dirs, l), layers[1..], written)
          case Err(e) => Err(e)
          case Ok(out) => Ok(Extracted(out.tree, ItemOf(dirs, rel, l) + out.items))
  }

  /** Extract, into an empty directory: the files, and a pack file that names their items. */
  function Extract(layers: seq<Layer>, packFile: Digest): Result<Extracted, Error> {
    match Files({}, layers, map[])
    case Err(e) => Err(e)
    case Ok(out) =>
      match Write(out.tree, PACKFILE, packFile)
      case Err(e) => Err(e)
      case Ok(tree) => Ok(Extracted(tree, out.items))
  }
}
