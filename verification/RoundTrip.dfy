/** Packing, extracting and packing again gives the same layers, and when. */
module RoundTrip {
  import opened Wrappers
  import opened Strings
  import opened Packing

  // ---------- what a pack's author may write ----------

  predicate Plain(item: Item) {
    && item.platform == ""
    && (if IsFile(item.from) then item.annotations.Keys !! {CREATED, REFNAME, SOURCE}
        else IsDir(item.from) && Inside(DirName(item)))
  }

  /** Files and directories, without reserved annotations; directories under clean relative
      names, none within another. */
  predicate Authored(items: seq<Item>) {
    && (forall item | item in items :: Plain(item))
    && (forall i, j | 0 <= i < |items| && 0 <= j < |items| && i != j && IsDir(items[i].from) && IsDir(items[j].from) ::
          !(DirName(items[i]) + "/" <= DirName(items[j]) + "/"))
  }

  // ---------- one item ----------

  function DirLayer(host: Host, d: string, p: string, digest: Digest): Layer
    requires d + "/" <= p
  {
    Layer(ResolveFileMediaType(host.mime, p), digest, "", "", map[TITLE := p[|d| + 1..], SOURCE := d])
  }

  lemma DirIsNoFile(item: Item)
    requires IsDir(item.from)
    ensures !IsFile(item.from)
  {
    assert item.from[0] == DIR[0] && FILE[0] != DIR[0];
  }

  lemma DirNamed(item: Item)
    requires Plain(item) && IsDir(item.from)
    ensures var named, d := TrimPrefix(item.from, DIR), DirName(item);
      (named == d || named == d + "/") && Clean(named) == d && d != "." && d != "" && !EndsWith(d, '/') && named != ""
  {
    var d, named := DirName(item), TrimPrefix(item.from, DIR);
    DirIsNoFile(item);
    if EndsWith(named, '/') { CutLast(named); }
    CleanSlash(d);
    CleanIsInside(d);
    InsideIsTidy(d);
  }

  /** A walk below a cleanly named directory, however the name was written. */
  lemma WalkedIs(host: Host, tree: Tree, item: Item, p: string)
    requires Plain(item) && IsDir(item.from) && p in Below(tree, DirName(item))
    ensures DirName(item) + "/" <= p
    ensures WalkedLayer(host, tree, item, p) == DirLayer(host, DirName(item), p, tree[p].digest)
  {
    DirNamed(item);
  }

  lemma DirLayerPath(host: Host, d: string, p: string, digest: Digest)
    requires Inside(d) && d + "/" <= p && Clean(p) == p
    ensures var l := DirLayer(host, d, p, digest);
      LayerPath(l) == (if TwoDots(p) then Err(EscapesDirectory) else Ok(p)) && Source(l) == d
  {
    var l := DirLayer(host, d, p, digest);
    CleanSlash(d);
    CleanBelowInside(d, p);
    InsideIsTidy(p);
    InsideIsTidy(d);
    assert p == d + "/" + p[|d| + 1..];
    assert p[|d| + 1..] == "" ==> p == d + "/";
    assert Title(l) == p[|d| + 1..];
  }

  lemma FileLayerPath(host: Host, tree: Tree, item: Item)
    requires Plain(item) && IsFile(item.from) && FileLayer(host, tree, item).Ok?
    ensures var l, b := FileLayer(host, tree, item).value, Base(TrimPrefix(item.from, FILE));
      Source(l) == "" && LayerPath(l) == (if TwoDots(b) then Err(EscapesDirectory) else Ok(b)) && '/' !in b && b != ""
  {
    var l, b := FileLayer(host, tree, item).value, Base(TrimPrefix(item.from, FILE));
    FileLayerNamed(host, tree, item);
    Titled(l, item.annotations, b);
  }

  lemma FileLayerIs(host: Host, tree: Tree, item: Item)
    requires FileLayer(host, tree, item).Ok?
    ensures var l, from := FileLayer(host, tree, item).value, TrimPrefix(item.from, FILE);
      && from != "" && !EndsWith(from, '/') && l.annotations == item.annotations[TITLE := Base(from)]
      && l.media == ResolveFileMediaType(host.mime, from) && l.platform == ""
      && l.artifactType == if item.typ == "" then ResolveFileMediaType(host.mime, from) else item.typ
  {
  }

  lemma Unsourced(item: Item)
    requires Plain(item) && IsFile(item.from)
    ensures SOURCE !in item.annotations
  {
    assert SOURCE !in item.annotations.Keys;
  }

  lemma NamedByBase(p: string)
    requires p != "" && !EndsWith(p, '/')
    ensures Base(p) != "" && '/' !in Base(p) && !StartsWith(Base(p), '/')
  {
    BaseIs(p);
    NameAfterSlash(p);
    NoHeadSlash(AfterSlash(p));
  }

  lemma NoHeadSlash(b: string)
    requires '/' !in b
    ensures !StartsWith(b, '/')
  {
    assert b != "" ==> b[0] in b;
  }

  lemma Titled(l: Layer, a: map<string, string>, b: string)
    requires l.annotations == a[TITLE := b] && SOURCE !in a && b != "" && !StartsWith(b, '/')
    ensures Source(l) == "" && Title(l) == b && LayerPath(l) == if TwoDots(b) then Err(EscapesDirectory) else Ok(b)
  {
    assert TITLE[0] != SOURCE[0];
  }

  // ---------- what extraction leaves ----------

  function Place(l: Layer): string {
    if LayerPath(l).Ok? then Clean(LayerPath(l).value) else "."
  }

  lemma WriteLeaves(tree: Tree, rel: string, d: Digest)
    requires Write(tree, rel, d).Ok?
    ensures var t, p := Write(tree, rel, d).value, Clean(rel);
      && p != "." && p in t && t[p] == File(d)
      && (forall a | a in Ancestors(p) :: a in t && t[a].Directory?)
      && (forall q | q in tree :: q in t && t[q].File? == tree[q].File?)
      && (forall q | q in t && t[q].File? && q != p :: q in tree && t[q] == tree[q])
  {
    var p := Clean(rel);
    assert p !in Ancestors(p);
  }

  ghost predicate Kept(before: Tree, after: Tree) {
    forall q | q in before :: q in after && after[q].File? == before[q].File?
  }

  ghost predicate Placed(layers: seq<Layer>, tree: Tree) {
    forall l | l in layers ::
      && LayerPath(l).Ok? && Place(l) != "." && Place(l) in tree && tree[Place(l)].File?
      && forall a | a in Ancestors(Place(l)) :: a in tree && tree[a].Directory?
  }

  /** Every file that is there afterwards was there before or is some layer's. */
  ghost predicate Traced(layers: seq<Layer>, before: Tree, after: Tree) {
    forall q | q in after && after[q].File? ::
      (q in before && after[q] == before[q]) || exists l :: l in layers && Place(l) == q && after[q] == File(l.digest)
  }

  lemma {:induction false} FilesPlace(dirs: set<string>, layers: seq<Layer>, tree: Tree)
    requires Files(dirs, layers, tree).Ok?
    ensures var out := Files(dirs, layers, tree).value.tree; Kept(tree, out) && Placed(layers, out)
    decreases |layers|
  {
    if layers != [] {
      var l := layers[0];
      var written := Write(tree, LayerPath(l).value, l.digest).value;
      WriteLeaves(tree, LayerPath(l).value, l.digest);
      FilesPlace(Subdirs(dirs, l), layers[1..], written);
      assert layers == [l] + layers[1..];
    }
  }

  lemma {:induction false} FilesTrace(dirs: set<string>, layers: seq<Layer>, tree: Tree)
    requires Files(dirs, layers, tree).Ok?
    ensures Traced(layers, tree, Files(dirs, layers, tree).value.tree)
    decreases |layers|
  {
    if layers != [] {
      var l := layers[0];
      var written := Write(tree, LayerPath(l).value, l.digest).value;
      WriteLeaves(tree, LayerPath(l).value, l.digest);
      FilesTrace(Subdirs(dirs, l), layers[1..], written);
      TraceStep(layers, tree, written, Files(dirs, layers, tree).value.tree);
    }
  }

  lemma TraceStep(layers: seq<Layer>, before: Tree, mid: Tree, after: Tree)
    requires layers != [] && LayerPath(layers[0]).Ok? && Traced(layers[1..], mid, after)
    requires forall q | q in mid && mid[q].File? && q != Place(layers[0]) :: q in before && mid[q] == before[q]
    requires Place(layers[0]) in mid && mid[Place(layers[0])] == File(layers[0].digest)
    ensures Traced(layers, before, after)
  {
    forall q | q in after && after[q].File?
      ensures (q in before && after[q] == before[q]) || exists l :: l in layers && Place(l) == q && after[q] == File(l.digest)
    {
      if l :| l in layers[1..] && Place(l) == q && after[q] == File(l.digest) {
        assert l in layers;
      } else if q == Place(layers[0]) {
        assert layers[0] in layers;
      }
    }
  }

  /** Extract's tree: exactly the layers' files and the pack file. */
  lemma ExtractLeaves(layers: seq<Layer>, packFile: Digest)
    requires Extract(layers, packFile).Ok?
    ensures var out := Extract(layers, packFile).value.tree;
      && PACKFILE in out && out[PACKFILE] == File(packFile) && Placed(layers, out)
      && Traced(layers, map[PACKFILE := File(packFile)], out)
  {
    var mid := Files({}, layers, map[]).value.tree;
    FilesPlace({}, layers, map[]);
    FilesTrace({}, layers, map[]);
    WriteLeaves(mid, PACKFILE, packFile);
    PackFileIsClean();
  }

  lemma PackFileIsClean()
    ensures Inside(PACKFILE) && Clean(PACKFILE) == PACKFILE && '/' !in PACKFILE
  {
    IndexOfIs(PACKFILE, '/', |PACKFILE|);
    assert Split(PACKFILE) == [PACKFILE];
    CleanIsInside(PACKFILE);
  }

  // ---------- the items written back ----------

  function SourcesOf(layers: seq<Layer>): set<string> {
    set l | l in layers && Source(l) != "" :: Source(l)
  }

  function ItemsOf(dirs: set<string>, layers: seq<Layer>): seq<Item>
    decreases |layers|
  {
    if layers == [] then []
    else
      var l := layers[0];
      (if LayerPath(l).Ok? then ItemOf(dirs, LayerPath(l).value, l) else []) + ItemsOf(Subdirs(dirs, l), layers[1..])
  }

  lemma {:induction false} FilesItems(dirs: set<string>, layers: seq<Layer>, tree: Tree)
    requires Files(dirs, layers, tree).Ok?
    ensures Files(dirs, layers, tree).value.items == ItemsOf(dirs, layers)
    decreases |layers|
  {
    if layers != [] {
      var l := layers[0];
      FilesItems(Subdirs(dirs, l), layers[1..], Write(tree, LayerPath(l).value, l.digest).value);
    }
  }

  lemma Regroup<T>(a: seq<T>, b: seq<T>, c: seq<T>)
    ensures (a + b) + c == a + (b + c)
  {
  }

  lemma {:induction false} ItemsAppend(dirs: set<string>, a: seq<Layer>, b: seq<Layer>)
    ensures ItemsOf(dirs, a + b) == ItemsOf(dirs, a) + ItemsOf(dirs + SourcesOf(a), b)
    decreases |a|
  {
    if a == [] {
      assert a + b == b && dirs + SourcesOf(a) == dirs;
    } else {
      var l := a[0];
      assert (a + b)[0] == l && (a + b)[1..] == a[1..] + b;
      ItemsAppend(Subdirs(dirs, l), a[1..], b);
      SourcesNext(dirs, a);
      Regroup(if LayerPath(l).Ok? then ItemOf(dirs, LayerPath(l).value, l) else [],
              ItemsOf(Subdirs(dirs, l), a[1..]), ItemsOf(dirs + SourcesOf(a), b));
    }
  }

  lemma SourcesNext(dirs: set<string>, layers: seq<Layer>)
    requires layers != []
    ensures dirs + SourcesOf(layers) == Subdirs(dirs, layers[0]) + SourcesOf(layers[1..])
  {
    assert layers == [layers[0]] + layers[1..];
  }

  /** All the layers of one directory come back as one item, where its first layer stood. */
  lemma {:induction false} OneDirItem(dirs: set<string>, layers: seq<Layer>, d: string)
    requires d != "" && layers != []
    requires forall l | l in layers :: LayerPath(l).Ok? && Source(l) == d && l.artifactType == "" && l.platform == ""
    ensures ItemsOf(dirs, layers) == if d in dirs then [] else [Item(DIR + d + "/", "", "", map[])]
    decreases |layers|
  {
    var l := layers[0];
    assert layers == [l] + layers[1..];
    if |layers| > 1 {
      OneDirItem(dirs + {d}, layers[1..], d);
    }
  }

  // ---------- packing again ----------

  /** The layer with what its file holds now. */
  function Reread(l: Layer, out: Tree): Layer {
    if Place(l) in out && out[Place(l)].File? then l.(digest := out[Place(l)].digest) else l
  }

  function RereadAll(layers: seq<Layer>, out: Tree): seq<Layer> {
    seq(|layers|, i requires 0 <= i < |layers| => Reread(layers[i], out))
  }

  lemma DotIsClean()
    ensures Clean(".") == "."
  {
    IndexOfIs(".", '/', 1);
    assert Split(".") == ["."] && ["."][..0] == [];
  }

  lemma NameIsClean(b: string)
    requires '/' !in b && b != "" && !TwoDots(b) && Clean(b) != "."
    ensures Clean(b) == b
  {
    IndexOfIs(b, '/', |b|);
    assert Split(b) == [b];
    assert b[0] != '.' || |b| < 2 || b[0 + 1] != '.';
    DotIsClean();
    CleanIsInside(b);
  }

  lemma AnnotationsBack(a: map<string, string>, b: string)
    requires a.Keys !! {CREATED, REFNAME, SOURCE}
    ensures (Strip(a[TITLE := b]) - {TITLE})[TITLE := b] == a[TITLE := b]
  {
    assert TITLE[25] != CREATED[25] && TITLE[25] != REFNAME[25] && TITLE[0] != SOURCE[0];
    var back := (Strip(a[TITLE := b]) - {TITLE})[TITLE := b];
    assert back.Keys == a.Keys + {TITLE};
  }

  lemma OneFileItem(l: Layer, b: string, dirs: set<string>)
    requires LayerPath(l) == Ok(b) && Source(l) == ""
    ensures ItemsOf(dirs, [l]) == [Item(FILE + b, l.artifactType, l.platform, Strip(l.annotations) - {TITLE})]
  {
    assert [l][1..] == [];
  }

  lemma FileLayerNamed(host: Host, tree: Tree, item: Item)
    requires Plain(item) && IsFile(item.from) && FileLayer(host, tree, item).Ok?
    ensures var l, b := FileLayer(host, tree, item).value, Base(TrimPrefix(item.from, FILE));
      && l.annotations == item.annotations[TITLE := b] && SOURCE !in item.annotations
      && '/' !in b && b != "" && !StartsWith(b, '/')
  {
    FileLayerIs(host, tree, item);
    NamedByBase(TrimPrefix(item.from, FILE));
    Unsourced(item);
  }

  /** Where a packed file is written, and the one item it comes back as. */
  lemma FileBack(l: Layer, a: map<string, string>, b: string, dirs: set<string>)
    requires l.annotations == a[TITLE := b] && SOURCE !in a && '/' !in b && b != "" && !StartsWith(b, '/')
    requires LayerPath(l).Ok? && Place(l) != "."
    ensures LayerPath(l) == Ok(b) && Place(l) == b && Source(l) == ""
    ensures ItemsOf(dirs, [l]) == [Item(FILE + b, l.artifactType, l.platform, Strip(l.annotations) - {TITLE})]
  {
    Titled(l, a, b);
    NameIsClean(b);
    OneFileItem(l, b, dirs);
  }

  lemma FileRepacked(host: Host, tree: Tree, out: Tree, item: Item, dirs: set<string>)
    requires Walks(host) && Plain(item) && IsFile(item.from) && FileLayer(host, tree, item).Ok?
    requires Placed([FileLayer(host, tree, item).value], out)
    ensures var l := FileLayer(host, tree, item).value;
      Source(l) == "" && |ItemsOf(dirs, [l])| == 1
      && ItemLayers(host, out, ItemsOf(dirs, [l])[0]) == Ok([Reread(l, out)])
  {
    var l, b := FileLayer(host, tree, item).value, Base(TrimPrefix(item.from, FILE));
    assert l in [l];
    FileLayerNamed(host, tree, item);
    FileBack(l, item.annotations, b, dirs);
    var back := ItemsOf(dirs, [l])[0];
    FileAgain(host, out, back, b);
    SameFileLayer(host, tree, item, out, back);
  }

  /** The layer of a file packed from its name alone is that of the file as it was named. */
  lemma SameFileLayer(host: Host, tree: Tree, item: Item, out: Tree, back: Item)
    requires Plain(item) && IsFile(item.from) && FileLayer(host, tree, item).Ok?
    requires var l, b := FileLayer(host, tree, item).value, Base(TrimPrefix(item.from, FILE));
      b in out && out[b].File? && FileLayer(host, out, back) ==
      Ok(Layer(ResolveFileMediaType(host.mime, b), out[b].digest,
               if l.artifactType == "" then ResolveFileMediaType(host.mime, b) else l.artifactType,
               "", (Strip(l.annotations) - {TITLE})[TITLE := Base(b)]))
    ensures var l, b := FileLayer(host, tree, item).value, Base(TrimPrefix(item.from, FILE));
      FileLayer(host, out, back) == Ok(l.(digest := out[b].digest))
  {
    FileLayerIs(host, tree, item);
    BaseOfBase(TrimPrefix(item.from, FILE));
    MediaOfBase(host.mime, TrimPrefix(item.from, FILE));
    AnnotationsBack(item.annotations, Base(TrimPrefix(item.from, FILE)));
  }

  lemma FileAgain(host: Host, out: Tree, back: Item, b: string)
    requires back.from == FILE + b && b != "" && '/' !in b && b in out && out[b].File?
    ensures IsFile(back.from) && FileLayer(host, out, back) ==
      Ok(Layer(ResolveFileMediaType(host.mime, b), out[b].digest,
               if back.typ == "" then ResolveFileMediaType(host.mime, b) else back.typ,
               "", back.annotations[TITLE := Base(b)]))
  {
    NoSlash(b);
    TrimmedPrefix(FILE, b);
    FileLayerOf(host, out, back, b);
  }

  lemma FileLayerOf(host: Host, tree: Tree, item: Item, from: string)
    requires TrimPrefix(item.from, FILE) == from && from != "" && !EndsWith(from, '/') && from in tree && tree[from].File?
    ensures FileLayer(host, tree, item) ==
      Ok(Layer(ResolveFileMediaType(host.mime, from), tree[from].digest,
               if item.typ == "" then ResolveFileMediaType(host.mime, from) else item.typ,
               "", item.annotations[TITLE := Base(from)]))
  {
  }

  function DirItem(d: string): Item {
    Item(DIR + d + "/", "", "", map[])
  }

  lemma DirChunk(host: Host, tree: Tree, item: Item)
    requires Walks(host) && Plain(item) && IsDir(item.from) && ItemLayers(host, tree, item).Ok?
    ensures var chunk, walk := ItemLayers(host, tree, item).value, host.order(Below(tree, DirName(item)));
      |chunk| == |walk| && forall i | 0 <= i < |chunk| ::
        walk[i] in Below(tree, DirName(item)) && DirName(item) + "/" <= walk[i]
        && chunk[i] == DirLayer(host, DirName(item), walk[i], tree[walk[i]].digest)
  {
    DirNamed(item);
    DirIsNoFile(item);
    var walk := host.order(Below(tree, DirName(item)));
    forall i | 0 <= i < |walk|
      ensures walk[i] in Below(tree, DirName(item)) && DirName(item) + "/" <= walk[i]
      ensures WalkedLayer(host, tree, item, walk[i]) == DirLayer(host, DirName(item), walk[i], tree[walk[i]].digest)
    {
      assert walk[i] in walk;
      WalkedIs(host, tree, item, walk[i]);
    }
  }

  lemma DirItemIs(d: string)
    requires Inside(d)
    ensures var back := DirItem(d); IsDir(back.from) && Plain(back) && DirName(back) == d
  {
    var back := DirItem(d);
    assert TrimPrefix(back.from, DIR) == d + "/";
    assert (d + "/")[..|d|] == d;
    assert IsDir(back.from) by { assert DIR <= DIR + (d + "/") == back.from; }
    DirIsNoFile(back);
  }

  lemma DirFound(host: Host, out: Tree, d: string)
    requires Walks(host) && Inside(d) && d in out && out[d].Directory?
    ensures ItemLayers(host, out, DirItem(d)).Ok?
  {
    DirItemIs(d);
    DirNamed(DirItem(d));
    DirIsNoFile(DirItem(d));
  }

  lemma DirRepacked(host: Host, tree: Tree, out: Tree, item: Item)
    requires Walks(host) && Plain(item) && IsDir(item.from) && ItemLayers(host, tree, item).Ok?
    requires Placed(ItemLayers(host, tree, item).value, out)
    requires DirName(item) in out && out[DirName(item)].Directory?
    requires Below(out, DirName(item)) == Below(tree, DirName(item))
    ensures ItemLayers(host, out, DirItem(DirName(item))) == Ok(RereadAll(ItemLayers(host, tree, item).value, out))
  {
    var d, chunk := DirName(item), ItemLayers(host, tree, item).value;
    DirNamed(item);
    DirIsNoFile(item);
    DirChunk(host, tree, item);
    DirItemIs(d);
    DirFound(host, out, d);
    DirChunk(host, out, DirItem(d));
    var again := ItemLayers(host, out, DirItem(d)).value;
    var walk := host.order(Below(tree, d));
    forall i | 0 <= i < |chunk| ensures again[i] == Reread(chunk[i], out) {
      assert chunk[i] in chunk;
      DirLayerPath(host, d, walk[i], tree[walk[i]].digest);
    }
    assert again == RereadAll(chunk, out);
  }

  lemma RereadAppend(a: seq<Layer>, b: seq<Layer>, out: Tree)
    ensures RereadAll(a + b, out) == RereadAll(a, out) + RereadAll(b, out)
  {
    var both, parts := RereadAll(a + b, out), RereadAll(a, out) + RereadAll(b, out);
    forall i | 0 <= i < |both| ensures both[i] == parts[i] {
      assert both[i] == Reread(if i < |a| then a[i] else b[i - |a|], out);
    }
  }

  lemma LayersAppend(host: Host, tree: Tree, a: seq<Item>, b: seq<Item>, la: seq<Layer>, lb: seq<Layer>)
    requires Walks(host) && |a| <= 1
    requires if a == [] then la == [] else ItemLayers(host, tree, a[0]) == Ok(la)
    requires Layers(host, tree, b) == Ok(lb)
    ensures Layers(host, tree, a + b) == Ok(la + lb)
  {
    if a == [] {
      assert a + b == b && la + lb == lb;
    } else {
      assert (a + b)[1..] == b && (a + b)[0] == a[0];
    }
  }

  /** What must be on disk for an item's directory to be packed again. */
  ghost predicate Same(tree: Tree, out: Tree, item: Item) {
    IsDir(item.from) && Below(tree, DirName(item)) != {} ==>
      && DirName(item) in out && out[DirName(item)].Directory?
      && Below(out, DirName(item)) == Below(tree, DirName(item))
  }

  function Names(items: seq<Item>): set<string> {
    set item | item in items && IsDir(item.from) :: DirName(item)
  }

  predicate Apart(items: seq<Item>) {
    forall i, j | 0 <= i < j < |items| && IsDir(items[i].from) && IsDir(items[j].from) :: DirName(items[i]) != DirName(items[j])
  }

  predicate Repacks(host: Host, out: Tree, back: seq<Item>, chunk: seq<Layer>)
    requires Walks(host)
  {
    |back| <= 1 && if back == [] then chunk == [] else ItemLayers(host, out, back[0]) == Ok(RereadAll(chunk, out))
  }

  lemma DirSources(host: Host, tree: Tree, item: Item, chunk: seq<Layer>)
    requires Walks(host) && Plain(item) && IsDir(item.from) && ItemLayers(host, tree, item) == Ok(chunk)
    ensures forall l | l in chunk :: Source(l) == DirName(item) && l.artifactType == "" && l.platform == ""
  {
    DirChunk(host, tree, item);
    var d, walk := DirName(item), host.order(Below(tree, DirName(item)));
    forall l | l in chunk ensures Source(l) == d && l.artifactType == "" && l.platform == "" {
      var i :| 0 <= i < |chunk| && chunk[i] == l;
      DirSource(host, d, walk[i], tree[walk[i]].digest);
    }
  }

  lemma DirItemRepacked(host: Host, tree: Tree, out: Tree, item: Item, dirs: set<string>, chunk: seq<Layer>)
    requires Walks(host) && Plain(item) && ItemLayers(host, tree, item) == Ok(chunk) && Placed(chunk, out)
    requires IsDir(item.from) && Same(tree, out, item) && DirName(item) !in dirs
    ensures Repacks(host, out, ItemsOf(dirs, chunk), chunk)
  {
    if chunk != [] {
      DirSources(host, tree, item, chunk);
      DirNamed(item);
      OneDirItem(dirs, chunk, DirName(item));
      DirChunk(host, tree, item);
      assert host.order(Below(tree, DirName(item)))[0] in Below(tree, DirName(item));
      DirRepacked(host, tree, out, item);
    }
  }

  lemma FileItemRepacked(host: Host, tree: Tree, out: Tree, item: Item, dirs: set<string>, chunk: seq<Layer>)
    requires Walks(host) && Plain(item) && ItemLayers(host, tree, item) == Ok(chunk) && Placed(chunk, out)
    requires IsFile(item.from)
    ensures Repacks(host, out, ItemsOf(dirs, chunk), chunk)
    ensures SourcesOf(chunk) == {}
  {
    var l := chunk[0];
    assert chunk == [l];
    FileRepacked(host, tree, out, item, dirs);
    OneReread(l, out);
  }

  lemma OneReread(l: Layer, out: Tree)
    ensures RereadAll([l], out) == [Reread(l, out)]
  {
  }

  /** One item's layers come back as that item, or as none when there are none; and pack again as
      the same layers over what is on disk now. */
  lemma ItemRepacked(host: Host, tree: Tree, out: Tree, item: Item, dirs: set<string>, chunk: seq<Layer>)
    requires Walks(host) && Plain(item) && ItemLayers(host, tree, item) == Ok(chunk) && Placed(chunk, out)
    requires Same(tree, out, item) && (IsDir(item.from) ==> DirName(item) !in dirs)
    ensures Repacks(host, out, ItemsOf(dirs, chunk), chunk)
    ensures SourcesOf(chunk) <= (if IsDir(item.from) then {DirName(item)} else {})
  {
    if IsDir(item.from) {
      DirSources(host, tree, item, chunk);
      DirItemRepacked(host, tree, out, item, dirs, chunk);
    } else {
      FileItemRepacked(host, tree, out, item, dirs, chunk);
    }
  }

  lemma DirSource(host: Host, d: string, p: string, digest: Digest)
    requires d + "/" <= p
    ensures Source(DirLayer(host, d, p, digest)) == d
  {
    assert TITLE[0] != SOURCE[0];
  }

  lemma {:induction false} ItemsRepacked(host: Host, tree: Tree, out: Tree, items: seq<Item>, dirs: set<string>)
    requires Walks(host) && (forall item | item in items :: Plain(item) && Same(tree, out, item))
    requires Apart(items) && Names(items) !! dirs
    requires Layers(host, tree, items).Ok? && Placed(Layers(host, tree, items).value, out)
    ensures var layers := Layers(host, tree, items).value;
      Layers(host, out, ItemsOf(dirs, layers)) == Ok(RereadAll(layers, out))
    decreases |items|
  {
    if items == [] {
      assert RereadAll([], out) == [];
    } else {
      var item, rest := items[0], items[1..];
      assert items == [item] + rest;
      var chunk, more := ItemLayers(host, tree, item).value, Layers(host, tree, rest).value;
      assert Placed(chunk, out) && Placed(more, out) by { assert forall l | l in chunk || l in more :: l in chunk + more; }
      assert item in items && (IsDir(item.from) ==> DirName(item) in Names(items));
      ItemRepacked(host, tree, out, item, dirs, chunk);
      var seen := dirs + SourcesOf(chunk);
      assert Names(rest) !! seen by { RestApart(items); }
      ItemsRepacked(host, tree, out, rest, seen);
      ItemsAppend(dirs, chunk, more);
      RereadAppend(chunk, more, out);
      LayersAppend(host, out, ItemsOf(dirs, chunk), ItemsOf(seen, more), RereadAll(chunk, out), RereadAll(more, out));
    }
  }

  lemma RestApart(items: seq<Item>)
    requires items != [] && Apart(items)
    ensures Names(items[1..]) <= Names(items) && Apart(items[1..])
    ensures IsDir(items[0].from) ==> DirName(items[0]) !in Names(items[1..])
  {
    forall item | item in items[1..]
      ensures item in items && (IsDir(item.from) && IsDir(items[0].from) ==> DirName(item) != DirName(items[0]))
    {
      var j :| 0 <= j < |items[1..]| && items[1..][j] == item;
      assert items[j + 1] == item;
    }
  }

  // ---------- the whole pack ----------

  lemma {:induction false} LayersHold(host: Host, tree: Tree, items: seq<Item>, item: Item)
    requires Walks(host) && Layers(host, tree, items).Ok? && item in items
    ensures ItemLayers(host, tree, item).Ok?
    ensures forall l | l in ItemLayers(host, tree, item).value :: l in Layers(host, tree, items).value
    decreases |items|
  {
    assert items == [items[0]] + items[1..];
    if item != items[0] {
      LayersHold(host, tree, items[1..], item);
    }
  }

  lemma {:induction false} LayerFrom(host: Host, tree: Tree, items: seq<Item>, l: Layer) returns (item: Item)
    requires Walks(host) && Layers(host, tree, items).Ok? && l in Layers(host, tree, items).value
    ensures item in items && ItemLayers(host, tree, item).Ok? && l in ItemLayers(host, tree, item).value
    decreases |items|
  {
    if l in ItemLayers(host, tree, items[0]).value {
      item := items[0];
    } else {
      item := LayerFrom(host, tree, items[1..], l);
    }
  }

  /** Where a layer's file goes: by its own name, or to where it was below its directory. */
  lemma LayerPlace(host: Host, tree: Tree, item: Item, l: Layer)
    requires Walks(host) && Plain(item) && ItemLayers(host, tree, item).Ok? && l in ItemLayers(host, tree, item).value
    requires LayerPath(l).Ok? && Place(l) != "."
    ensures LayerPath(l) == Ok(Place(l))
    ensures if IsDir(item.from) then Place(l) in Below(tree, DirName(item)) else '/' !in Place(l)
  {
    if IsDir(item.from) {
      DirChunk(host, tree, item);
      DirNamed(item);
      DirIsNoFile(item);
      var chunk, d := ItemLayers(host, tree, item).value, DirName(item);
      var i :| 0 <= i < |chunk| && chunk[i] == l;
      var p := host.order(Below(tree, d))[i];
      DirLayerPath(host, d, p, tree[p].digest);
    } else {
      FileLayerPath(host, tree, item);
      NameIsClean(Base(TrimPrefix(item.from, FILE)));
    }
  }

  lemma Comparable(d: string, e: string, q: string)
    requires d + "/" <= q && e + "/" <= q
    ensures d + "/" <= e + "/" || e + "/" <= d + "/"
  {
    assert (d + "/") == q[..|d| + 1] && (e + "/") == q[..|e| + 1];
  }

  /** What is at a path with a slash after extraction is some layer's. */
  lemma LayerAt(layers: seq<Layer>, packFile: Digest, q: string) returns (l: Layer)
    requires Extract(layers, packFile).Ok? && '/' in q
    requires q in Extract(layers, packFile).value.tree && Extract(layers, packFile).value.tree[q].File?
    ensures l in layers && LayerPath(l).Ok? && Place(l) == q && q != "."
  {
    ExtractLeaves(layers, packFile);
    PackFileIsClean();
    l :| l in layers && Place(l) == q;
  }

  lemma BelowHasSlash(d: string, q: string)
    requires d + "/" <= q
    ensures '/' in q
  {
    assert q[|d|] == '/';
  }

  /** Nothing but a directory's own files is below it after extraction. */
  lemma NothingStrays(host: Host, tree: Tree, items: seq<Item>, packFile: Digest, item: Item, q: string)
    requires Walks(host) && Authored(items) && Layers(host, tree, items).Ok? && item in items && IsDir(item.from)
    requires Extract(Layers(host, tree, items).value, packFile).Ok?
    requires q in Below(Extract(Layers(host, tree, items).value, packFile).value.tree, DirName(item))
    ensures q in Below(tree, DirName(item))
  {
    var layers := Layers(host, tree, items).value;
    DirNamed(item);
    BelowHasSlash(DirName(item), q);
    var l := LayerAt(layers, packFile, q);
    var other := LayerFrom(host, tree, items, l);
    LayerPlace(host, tree, other, l);
    assert IsDir(other.from);
    DirNamed(other);
    assert DirName(other) + "/" <= q;
    SameDir(items, item, other, q);
  }

  lemma SameDir(items: seq<Item>, item: Item, other: Item, q: string)
    requires Authored(items) && item in items && other in items && IsDir(item.from) && IsDir(other.from)
    requires DirName(item) + "/" <= q && DirName(other) + "/" <= q
    ensures item == other
  {
    var i :| 0 <= i < |items| && items[i] == item;
    var j :| 0 <= j < |items| && items[j] == other;
    Comparable(DirName(item), DirName(other), q);
    assert i == j;
  }

  lemma DirChunkAt(host: Host, tree: Tree, item: Item, i: nat) returns (p: string)
    requires Walks(host) && Plain(item) && IsDir(item.from) && ItemLayers(host, tree, item).Ok?
    requires i < |ItemLayers(host, tree, item).value|
    ensures i < |host.order(Below(tree, DirName(item)))| && p == host.order(Below(tree, DirName(item)))[i]
    ensures p in Below(tree, DirName(item)) && DirName(item) + "/" <= p && Inside(DirName(item))
    ensures ItemLayers(host, tree, item).value[i] == DirLayer(host, DirName(item), p, tree[p].digest)
  {
    DirChunk(host, tree, item);
    DirIsNoFile(item);
    p := host.order(Below(tree, DirName(item)))[i];
  }

  lemma ParentOf(d: string, p: string)
    requires d + "/" <= p
    ensures d in Ancestors(p)
  {
    assert p[..|d|] == d && p[|d|] == '/';
  }

  /** Every file below a packed directory has its layer. */
  lemma WalkedHasLayer(host: Host, tree: Tree, item: Item, p: string) returns (l: Layer)
    requires Walks(host) && Plain(item) && IsDir(item.from) && ItemLayers(host, tree, item).Ok?
    requires p in Below(tree, DirName(item))
    ensures l in ItemLayers(host, tree, item).value && (LayerPath(l).Ok? ==> Place(l) == p)
    ensures DirName(item) in Ancestors(p)
  {
    DirChunk(host, tree, item);
    var i :| 0 <= i < |host.order(Below(tree, DirName(item)))| && host.order(Below(tree, DirName(item)))[i] == p;
    l := ItemLayers(host, tree, item).value[i];
    var q := DirChunkAt(host, tree, item, i);
    DirLayerPath(host, DirName(item), p, tree[p].digest);
    ParentOf(DirName(item), p);
  }

  lemma NothingLost(host: Host, tree: Tree, items: seq<Item>, packFile: Digest, item: Item, p: string)
    requires Walks(host) && Authored(items) && Layers(host, tree, items).Ok? && item in items && IsDir(item.from)
    requires Extract(Layers(host, tree, items).value, packFile).Ok? && p in Below(tree, DirName(item))
    ensures var out := Extract(Layers(host, tree, items).value, packFile).value.tree;
      p in Below(out, DirName(item)) && DirName(item) in out && out[DirName(item)].Directory?
  {
    ExtractLeaves(Layers(host, tree, items).value, packFile);
    LayersHold(host, tree, items, item);
    DirNamed(item);
    var l := WalkedHasLayer(host, tree, item, p);
    assert l in Layers(host, tree, items).value;
  }

  lemma SameAfter(host: Host, tree: Tree, items: seq<Item>, packFile: Digest, item: Item)
    requires Walks(host) && Authored(items) && Layers(host, tree, items).Ok? && item in items
    requires Extract(Layers(host, tree, items).value, packFile).Ok?
    ensures Same(tree, Extract(Layers(host, tree, items).value, packFile).value.tree, item)
  {
    var out := Extract(Layers(host, tree, items).value, packFile).value.tree;
    if IsDir(item.from) {
      forall p | p in Below(tree, DirName(item))
        ensures p in Below(out, DirName(item)) && DirName(item) in out && out[DirName(item)].Directory? {
        NothingLost(host, tree, items, packFile, item, p);
      }
      forall q | q in Below(out, DirName(item)) ensures q in Below(tree, DirName(item)) {
        NothingStrays(host, tree, items, packFile, item, q);
      }
    }
  }

  /** What is packed again is the same layers over what is on disk now. */
  lemma Repacked(host: Host, tree: Tree, items: seq<Item>, packFile: Digest)
    requires Walks(host) && Authored(items) && Layers(host, tree, items).Ok?
    requires Extract(Layers(host, tree, items).value, packFile).Ok?
    ensures var layers := Layers(host, tree, items).value;
      var out := Extract(layers, packFile).value;
      Layers(host, out.tree, out.items) == Ok(RereadAll(layers, out.tree)) && (out.items == [] <==> layers == [])
  {
    var layers := Layers(host, tree, items).value;
    var out := Extract(layers, packFile).value;
    ExtractLeaves(layers, packFile);
    FilesItems({}, layers, map[]);
    forall item | item in items ensures Same(tree, out.tree, item) { SameAfter(host, tree, items, packFile, item); }
    forall i, j | 0 <= i < j < |items| && IsDir(items[i].from) && IsDir(items[j].from)
      ensures DirName(items[i]) != DirName(items[j])
    {
      assert DirName(items[i]) + "/" <= DirName(items[i]) + "/";
    }
    ItemsRepacked(host, tree, out.tree, items, {});
  }

  /** Two layers that go to one file hold the same bytes. */
  predicate Agree(layers: seq<Layer>) {
    forall l, m | l in layers && m in layers && LayerPath(l) == LayerPath(m) :: l.digest == m.digest
  }

  /** No layer goes where the pack file is written, unless it is that very file. */
  predicate PackFileKept(layers: seq<Layer>, packFile: Digest) {
    forall l | l in layers && LayerPath(l) == Ok(PACKFILE) :: l.digest == packFile
  }

  lemma RereadSame(layers: seq<Layer>, out: Tree, packFile: Digest)
    requires Placed(layers, out) && PACKFILE in out && out[PACKFILE] == File(packFile)
    requires Traced(layers, map[PACKFILE := File(packFile)], out)
    requires forall l | l in layers :: LayerPath(l) == Ok(Place(l))
    ensures RereadAll(layers, out) == layers <==> Agree(layers) && PackFileKept(layers, packFile)
  {
    if RereadAll(layers, out) == layers {
      forall l | l in layers ensures l.digest == out[Place(l)].digest {
        var i :| 0 <= i < |layers| && layers[i] == l;
        assert RereadAll(layers, out)[i] == l;
      }
    }
    if Agree(layers) && PackFileKept(layers, packFile) {
      forall i | 0 <= i < |layers| ensures Reread(layers[i], out) == layers[i] {
        assert layers[i] in layers;
      }
      assert RereadAll(layers, out) == layers;
    }
  }

  /** Packing, extracting into an empty directory and packing again gives the very same layers (order,
      digest, media type, artifact type, title, directory and the author's annotations) exactly when
      there are any, files that meet in one place hold the same bytes, and none takes the place of the
      pack file. */
  lemma PackExtractPack(host: Host, tree: Tree, items: seq<Item>, packFile: Digest)
    requires Walks(host) && Authored(items) && Pack(host, tree, items).Ok?
    requires Extract(Pack(host, tree, items).value, packFile).Ok?
    ensures var layers := Pack(host, tree, items).value;
      var out := Extract(layers, packFile).value;
      Pack(host, out.tree, out.items) == Ok(layers) <==> layers != [] && Agree(layers) && PackFileKept(layers, packFile)
  {
    var layers := Pack(host, tree, items).value;
    var out := Extract(layers, packFile).value;
    Repacked(host, tree, items, packFile);
    ExtractLeaves(layers, packFile);
    forall l | l in layers ensures LayerPath(l) == Ok(Place(l)) {
      var item := LayerFrom(host, tree, items, l);
      LayerPlace(host, tree, item, l);
    }
    RereadSame(layers, out.tree, packFile);
  }

  // ---------- when extraction succeeds ----------

  predicate Fits(tree: Tree, l: Layer) {
    && LayerPath(l).Ok? && Place(l) != "."
    && !(Place(l) in tree && tree[Place(l)].Directory?)
    && !exists a | a in Ancestors(Place(l)) :: a in tree && tree[a].File?
  }

  predicate Clash(l: Layer, m: Layer) {
    Place(l) in Ancestors(Place(m)) || Place(m) in Ancestors(Place(l))
  }

  lemma WriteIs(tree: Tree, l: Layer)
    requires Fits(tree, l)
    ensures Write(tree, LayerPath(l).value, l.digest).Ok?
    ensures var t := Write(tree, LayerPath(l).value, l.digest).value;
      && (forall q :: q in t && t[q].Directory? <==> (q in tree && tree[q].Directory?) || q in Ancestors(Place(l)))
      && (forall q :: q in t && t[q].File? <==> (q in tree && tree[q].File?) || q == Place(l))
  {
    assert Place(l) !in Ancestors(Place(l));
  }

  lemma FitsNext(tree: Tree, l: Layer, m: Layer)
    requires Fits(tree, l)
    ensures Write(tree, LayerPath(l).value, l.digest).Ok?
    ensures Fits(Write(tree, LayerPath(l).value, l.digest).value, m) <==> Fits(tree, m) && !Clash(l, m)
  {
    WriteIs(tree, l);
    var t := Write(tree, LayerPath(l).value, l.digest).value;
    FitsOver(tree, t, l, m);
  }

  lemma FitsOver(tree: Tree, t: Tree, l: Layer, m: Layer)
    requires forall q :: q in t && t[q].Directory? <==> (q in tree && tree[q].Directory?) || q in Ancestors(Place(l))
    requires forall q :: q in t && t[q].File? <==> (q in tree && tree[q].File?) || q == Place(l)
    ensures Fits(t, m) <==> Fits(tree, m) && !Clash(l, m)
  {
  }

  predicate FitTogether(layers: seq<Layer>) {
    forall i, j | 0 <= i < j < |layers| :: !Clash(layers[i], layers[j])
  }

  lemma TogetherNext(l: Layer, rest: seq<Layer>)
    ensures FitTogether([l] + rest) <==> FitTogether(rest) && forall m | m in rest :: !Clash(l, m)
  {
    var all := [l] + rest;
    if FitTogether(all) {
      forall m | m in rest ensures !Clash(l, m) {
        var j :| 0 <= j < |rest| && rest[j] == m;
        assert all[0] == l && all[j + 1] == m;
      }
      forall i, j | 0 <= i < j < |rest| ensures !Clash(rest[i], rest[j]) {
        assert all[i + 1] == rest[i] && all[j + 1] == rest[j];
      }
    }
  }

  lemma {:induction false} FilesSucceed(dirs: set<string>, layers: seq<Layer>, tree: Tree)
    ensures Files(dirs, layers, tree).Ok? <==> (forall l | l in layers :: Fits(tree, l)) && FitTogether(layers)
    decreases |layers|
  {
    if layers != [] {
      var l, rest := layers[0], layers[1..];
      assert layers == [l] + rest;
      TogetherNext(l, rest);
      if Fits(tree, l) {
        FitsNext(tree, l, l);
        var written := Write(tree, LayerPath(l).value, l.digest).value;
        FilesSucceed(Subdirs(dirs, l), rest, written);
        forall m | m in rest ensures Fits(written, m) <==> Fits(tree, m) && !Clash(l, m) { FitsNext(tree, l, m); }
        FilesFirst(dirs, layers, tree);
      } else {
        assert l in layers;
      }
    }
  }

  lemma FilesFirst(dirs: set<string>, layers: seq<Layer>, tree: Tree)
    requires layers != [] && LayerPath(layers[0]).Ok? && Write(tree, LayerPath(layers[0]).value, layers[0].digest).Ok?
    ensures var l := layers[0];
      Files(dirs, layers, tree).Ok? <==>
        Files(Subdirs(dirs, l), layers[1..],
              Write(tree, LayerPath(l).value, l.digest).value).Ok?
  {
  }

  /** Extraction into an empty directory succeeds exactly when every layer's path stays inside and no
      file lies where another, or the pack file, needs a directory. */
  lemma ExtractSucceeds(layers: seq<Layer>, packFile: Digest)
    ensures Extract(layers, packFile).Ok? <==>
      && (forall l | l in layers :: LayerPath(l).Ok? && Place(l) != "." && PACKFILE !in Ancestors(Place(l)))
      && FitTogether(layers)
  {
    FilesSucceed({}, layers, map[]);
    if Files({}, layers, map[]).Ok? {
      PackFileFits(layers, packFile);
    }
  }

  lemma PackFileFits(layers: seq<Layer>, packFile: Digest)
    requires Files({}, layers, map[]).Ok?
    ensures Write(Files({}, layers, map[]).value.tree, PACKFILE, packFile).Ok? <==>
      forall l | l in layers :: PACKFILE !in Ancestors(Place(l))
  {
    PackFileIsClean();
    FilesPlace({}, layers, map[]);
    DirsTrace({}, layers, map[]);
    NoAncestors(PACKFILE);
    WriteAtTop(Files({}, layers, map[]).value.tree, PACKFILE, packFile);
  }

  lemma WriteAtTop(tree: Tree, p: string, d: Digest)
    requires Clean(p) == p && p != "." && Ancestors(p) == {}
    ensures Write(tree, p, d).Ok? <==> !(p in tree && tree[p].Directory?)
  {
  }

  lemma NoAncestors(p: string)
    requires '/' !in p
    ensures Ancestors(p) == {}
  {
    assert forall i | 0 <= i < |p| :: p[i] in p;
  }

  ghost predicate DirsFrom(layers: seq<Layer>, before: Tree, after: Tree) {
    forall q | q in after && after[q].Directory? ::
      (q in before && before[q].Directory?) || exists l :: l in layers && q in Ancestors(Place(l))
  }

  lemma WriteDirs(tree: Tree, l: Layer)
    requires LayerPath(l).Ok? && Write(tree, LayerPath(l).value, l.digest).Ok?
    ensures DirsFrom([l], tree, Write(tree, LayerPath(l).value, l.digest).value)
  {
    assert l in [l];
  }

  lemma {:induction false} DirsTrace(dirs: set<string>, layers: seq<Layer>, tree: Tree)
    requires Files(dirs, layers, tree).Ok?
    ensures DirsFrom(layers, tree, Files(dirs, layers, tree).value.tree)
    decreases |layers|
  {
    if layers != [] {
      var l := layers[0];
      var written := Write(tree, LayerPath(l).value, l.digest).value;
      WriteDirs(tree, l);
      DirsTrace(Subdirs(dirs, l), layers[1..], written);
      DirsStep(layers, tree, written, Files(dirs, layers, tree).value.tree);
    }
  }

  lemma DirsStep(layers: seq<Layer>, before: Tree, mid: Tree, after: Tree)
    requires layers != [] && DirsFrom(layers[1..], mid, after) && DirsFrom([layers[0]], before, mid)
    ensures DirsFrom(layers, before, after)
  {
    assert layers == [layers[0]] + layers[1..];
    forall q | q in after && after[q].Directory?
      ensures (q in before && before[q].Directory?) || exists l :: l in layers && q in Ancestors(Place(l))
    {
      if l :| l in layers[1..] && q in Ancestors(Place(l)) {
        assert l in layers;
      } else if l :| l in [layers[0]] && q in Ancestors(Place(l)) {
        assert l in layers;
      }
    }
  }
}
