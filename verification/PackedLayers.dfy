/** What the items of a pack come to, and what an extraction writes back for a layer: said of paths, names and
    texts (handlers.go, utils.go, pkg/extract/extract.go). */
module PackedLayers {
  import opened Wrappers
  import opened Strings
  import opened Packing
  import opened RoundTrip
  import opened Building
  import References
  import ReferenceGrammar

  // ---------- media types ----------

  /** From the last dot of the last element on; nothing where that has none. */
  ghost predicate EndsInExt(p: string, ext: string) {
    if ext == "" then forall i | 0 <= i < |p| && p[i] == '.' :: '/' in p[i..]
    else |ext| <= |p| && p[|p| - |ext|..] == ext && ext[0] == '.' && '.' !in ext[1..] && '/' !in ext
  }

  lemma {:induction false} ExtIs(p: string)
    ensures EndsInExt(p, Ext(p))
  {
    if p != "" && !EndsWith(p, '/') && !EndsWith(p, '.') {
      var q, last := p[..|p| - 1], p[|p| - 1];
      ExtIs(q);
      var e := Ext(q);
      if e == "" {
        forall i | 0 <= i < |p| && p[i] == '.' ensures '/' in p[i..] {
          assert q[i] == '.' && '/' in q[i..];
          var k :| 0 <= k < |q[i..]| && q[i..][k] == '/';
          assert p[i..][k] == '/';
        }
      } else {
        assert p[|p| - |e + [last]|..] == e + [last];
      }
    } else if EndsWith(p, '/') {
      forall i | 0 <= i < |p| && p[i] == '.' ensures '/' in p[i..] { assert p[i..][|p| - 1 - i] == '/'; }
    }
  }

  lemma OneExt(p: string, e: string, f: string)
    requires EndsInExt(p, e) && EndsInExt(p, f)
    ensures e == f
  {
    if e != "" && f == "" { NoExt(p, e); }
    if f != "" && e == "" { NoExt(p, f); }
    if e != "" && f != "" && |e| != |f| {
      if |e| < |f| { ShorterExt(p, e, f); } else { ShorterExt(p, f, e); }
    }
  }

  lemma NoExt(p: string, e: string)
    requires EndsInExt(p, e) && e != ""
    ensures !EndsInExt(p, "")
  {
    assert p[|p| - |e|] == e[0] && p[|p| - |e|..] == e;
  }

  lemma ShorterExt(p: string, e: string, f: string)
    requires EndsInExt(p, e) && e != "" && |e| < |f| <= |p| && f != ""
    ensures !EndsInExt(p, f)
  {
    var k := |f| - |e|;
    assert p[|p| - |f|..][k] == p[|p| - |e|] == e[0];
    assert p[|p| - |f|..][1..][k - 1] == '.';
  }

  /** The media type of a file: by the two double endings, then by its extension, first the two that are known here
      and then as the machine knows it, up to any parameter; and otherwise plain bytes. */
  ghost predicate MediaIs(mime: string -> string, p: string, media: string) {
    if HasSuffix(p, ".tar.gz") then media == "application/vnd.oci.image.layer.v1.tar+gzip"
    else if HasSuffix(p, ".tar.zst") then media == "application/vnd.oci.image.layer.v1.tar+zstd"
    else
      && (EndsInExt(p, ".tar") ==> media == "application/vnd.oci.image.layer.v1.tar")
      && (EndsInExt(p, ".tgz") ==> media == "application/vnd.oci.image.layer.v1.tar+gzip")
      && (forall ext | EndsInExt(p, ext) && ext !in {".tar", ".tgz"} ::
            if ext == "" || mime(ext) == "" then media == "application/octet-stream"
            else media <= mime(ext) && ';' !in media && (media == mime(ext) || mime(ext)[|media|] == ';'))
  }

  lemma MediaTypeIs(mime: string -> string, p: string)
    ensures MediaIs(mime, p, ResolveFileMediaType(mime, p))
  {
    ExtIs(p);
    forall ext | EndsInExt(p, ext) ensures ext == Ext(p) { OneExt(p, ext, Ext(p)); }
  }

  // ---------- files ----------

  /** The last element of a path that does not end in a slash. */
  ghost predicate LastElement(p: string, name: string) {
    name != "" && '/' !in name && exists above :: p == above + name && (above == "" || EndsWith(above, '/'))
  }

  /** One layer for a file: its bytes under its media type; of the item's type, or else of that media type; with
      what the item says of it, and its own name for a title. */
  ghost predicate PacksFile(host: Host, tree: Tree, item: Item, path: string, l: Layer) {
    && path != "" && path[|path| - 1] != '/' && path in tree && tree[path].File? && l.digest == tree[path].digest
    && MediaIs(host.mime, path, l.media) && l.platform == ""
    && l.artifactType == (if item.typ != "" then item.typ else l.media)
    && TitleIs(l, path) && SayWhat(l.annotations, item.annotations)
  }

  ghost predicate TitleIs(l: Layer, path: string) {
    TITLE in l.annotations && LastElement(path, l.annotations[TITLE])
  }

  /** Besides the title, just what the item says. */
  ghost predicate SayWhat(a: map<string, string>, given: map<string, string>) {
    a.Keys == given.Keys + {TITLE} && forall k | k in given && k != TITLE :: a[k] == given[k]
  }

  /** The annotations of the OCI Image Format Specification, and the packer's own. */
  lemma AnnotationKeys()
    ensures TITLE == "org.opencontainers.image.title" && CREATED == "org.opencontainers.image.created"
    ensures REFNAME == "org.opencontainers.image.ref.name" && SOURCE == "io.arenadata.oci-packer.dir"
  {
  }

  lemma BaseIsLast(p: string)
    requires p != "" && p[|p| - 1] != '/'
    ensures LastElement(p, Base(p))
  {
    BaseIs(p);
    NameAfterSlash(p);
    CutIsLast(p, SlashEnd(p));
  }

  lemma CutIsLast(p: string, i: nat)
    requires i <= |p| && (i > 0 ==> p[i - 1] == '/') && p[i..] != "" && '/' !in p[i..]
    ensures LastElement(p, p[i..])
  {
    assert p == p[..i] + p[i..];
  }

  /** What a file:// item comes to, and when. */
  lemma FileItemIs(host: Host, tree: Tree, item: Item, path: string)
    requires Walks(host) && item.from == "file://" + path
    ensures var ls := ItemLayers(host, tree, item);
      && (ls.Ok? <==> path != "" && path[|path| - 1] != '/' && path in tree && tree[path].File?)
      && (ls.Ok? ==> |ls.value| == 1 && PacksFile(host, tree, item, path, ls.value[0]))
  {
    TrimmedPrefix(FILE, path);
    if FileLayer(host, tree, item).Ok? {
      FileLayerIs(host, tree, item);
      FileIsPacked(host, tree, item, path, FileLayer(host, tree, item).value);
    }
  }

  lemma FileIsPacked(host: Host, tree: Tree, item: Item, path: string, l: Layer)
    requires path != "" && path[|path| - 1] != '/' && path in tree && tree[path].File? && l.digest == tree[path].digest
    requires l.annotations == item.annotations[TITLE := Base(path)] && l.platform == ""
    requires l.media == ResolveFileMediaType(host.mime, path)
    requires l.artifactType == if item.typ == "" then ResolveFileMediaType(host.mime, path) else item.typ
    ensures PacksFile(host, tree, item, path, l)
  {
    BaseIsLast(path);
    TitledBy(l.annotations, item.annotations, Base(path));
    assert MediaIs(host.mime, path, l.media) by { MediaTypeIs(host.mime, path); }
  }

  lemma TitledBy(a: map<string, string>, given: map<string, string>, name: string)
    requires a == given[TITLE := name]
    ensures TITLE in a && a[TITLE] == name && SayWhat(a, given)
  {
  }

  // ---------- directories ----------

  /** One layer for a file below a directory: its bytes under its media type, the path below the directory for a title,
      marked with the directory, and nothing of what the item says. */
  ghost predicate PacksBelow(host: Host, tree: Tree, d: string, rel: string, l: Layer) {
    && d + "/" + rel in tree && tree[d + "/" + rel].File? && l.digest == tree[d + "/" + rel].digest
    && MediaIs(host.mime, d + "/" + rel, l.media) && l.artifactType == "" && l.platform == ""
    && l.annotations == map[TITLE := rel, SOURCE := d]
  }

  /** Every layer is of some file below, and every file below has one. */
  ghost predicate AllBelow(host: Host, tree: Tree, d: string, ls: seq<Layer>) {
    && (forall l | l in ls :: exists rel :: PacksBelow(host, tree, d, rel, l))
    && (forall rel | d + "/" + rel in tree && tree[d + "/" + rel].File? && Clean(d + "/" + rel) == d + "/" + rel ::
          exists l :: l in ls && PacksBelow(host, tree, d, rel, l))
  }

  /** What a dir:// item comes to, under a clean name: every file below it is packed, and nothing else. */
  lemma DirItemIsAll(host: Host, tree: Tree, item: Item)
    requires Walks(host) && Plain(item) && IsDir(item.from)
    ensures var d, ls := DirName(item), ItemLayers(host, tree, item);
      && (ls.Ok? <==> d in tree && tree[d].Directory?)
      && (ls.Ok? ==> AllBelow(host, tree, d, ls.value))
  {
    var d, ls := DirName(item), ItemLayers(host, tree, item);
    DirNamed(item);
    DirIsNoFile(item);
    if ls.Ok? {
      DirChunk(host, tree, item);
      var walk := host.order(Below(tree, d));
      forall l | l in ls.value ensures exists rel :: PacksBelow(host, tree, d, rel, l) {
        var i :| 0 <= i < |ls.value| && ls.value[i] == l;
        WalkedBelow(host, tree, d, walk[i], l);
      }
      forall rel | d + "/" + rel in tree && tree[d + "/" + rel].File? && Clean(d + "/" + rel) == d + "/" + rel
        ensures exists l :: l in ls.value && PacksBelow(host, tree, d, rel, l)
      {
        var p := d + "/" + rel;
        assert p in Below(tree, d) && p in walk;
        var i :| 0 <= i < |walk| && walk[i] == p;
        WalkedBelow(host, tree, d, p, ls.value[i]);
        assert p[|d| + 1..] == rel && ls.value[i] in ls.value;
      }
    }
  }

  lemma WalkedBelow(host: Host, tree: Tree, d: string, p: string, l: Layer)
    requires p in tree && tree[p].File? && d + "/" <= p && l == DirLayer(host, d, p, tree[p].digest)
    ensures PacksBelow(host, tree, d, p[|d| + 1..], l)
  {
    MediaTypeIs(host.mime, p);
    assert p == d + "/" + p[|d| + 1..];
  }

  // ---------- downloads and the rest ----------

  /** One layer for a download: what came, under the media type of the file it was saved to, and of the item's own type
      and annotations. */
  ghost predicate PacksDownload(w: World, item: Item, saved: Saved, l: Layer) {
    && l.digest == saved.digest && MediaIs(w.host.mime, saved.path, l.media)
    && l.artifactType == item.typ && l.platform == "" && l.annotations == item.annotations
  }

  /** What any item comes to, by its scheme. */
  lemma ItemIsBySource(w: World, item: Item)
    requires Walks(w.host)
    ensures "http://" <= item.from || "https://" <= item.from ==>
      if w.web(item.from).Err? then Handled(w, item) == Err(w.web(item.from).error)
      else exists l :: Handled(w, item) == Ok(Built([l])) && PacksDownload(w, item, w.web(item.from).value, l)
    ensures "file://" <= item.from || "dir://" <= item.from ==>
      Handled(w, item) == match ItemLayers(w.host, w.tree, item) { case Err(e) => Err(e) case Ok(ls) => Ok(Built(ls)) }
    ensures "oci://" <= item.from ==> Handled(w, item) == Ok(Mounted(item.from))
    ensures "s3://" <= item.from || "s3+http://" <= item.from ==> Handled(w, item) == Err(Unsupported)
  {
    if item.from != "" { Scheme(w, item, item.from[0]); }
    if IsHttp(item.from) && w.web(item.from).Ok? {
      assert PacksDownload(w, item, w.web(item.from).value, HttpLayer(w, item).value);
    }
  }

  lemma Scheme(w: World, item: Item, first: char)
    requires Walks(w.host) && item.from != "" && first == item.from[0]
    ensures first == 'h' ==> !IsFile(item.from) && !IsDir(item.from) && !IsOci(item.from) && !IsS3(item.from)
    ensures first == 'f' || first == 'd' || first == 'o' || first == 's' ==> !IsHttp(item.from)
    ensures first == 'o' || first == 's' ==> !IsFile(item.from) && !IsDir(item.from)
    ensures first == 's' ==> !IsOci(item.from)
    ensures IsHttp(item.from) && w.web(item.from).Ok? ==>
      MediaIs(w.host.mime, w.web(item.from).value.path, HttpLayer(w, item).value.media)
  {
    if IsHttp(item.from) && w.web(item.from).Ok? { MediaTypeIs(w.host.mime, w.web(item.from).value.path); }
  }

  // ---------- where a layer goes, and what it is written back as ----------

  /** A layer without a title goes to the first twelve digits of its digest. */
  lemma UntitledPlace(l: Layer, algorithm: string, hex: string)
    requires l.digest == algorithm + ":" + hex && ':' !in algorithm && |hex| >= 12
    requires Note(l.annotations, TITLE) == "" && Note(l.annotations, SOURCE) == ""
    requires '.' !in hex && '/' !in hex
    ensures LayerPath(l) == Ok(hex[..12])
  {
    assert l.digest[|algorithm|] == ':' && l.digest[|algorithm| + 1..] == hex;
    forall j | 0 <= j < |algorithm| ensures l.digest[j] != ':' { assert algorithm[j] in algorithm; }
    IndexOfIs(l.digest, ':', |algorithm|);
    var rel := hex[..12];
    assert Title(l) == rel;
    forall j | 0 <= j < |rel| ensures rel[j] != '.' && rel[j] != '/' { assert hex[j] in hex; }
  }

  /** A titled layer goes to its title, or below the directory it was packed from; unless that leads out of the
      artifact's directory. */
  lemma TitledPlace(l: Layer)
    requires Note(l.annotations, TITLE) != ""
    ensures var title, dir := l.annotations[TITLE], Note(l.annotations, SOURCE);
      var rel := if dir == "" then title else Clean(dir + "/" + title);
      LayerPath(l) == if TwoDots(rel) || StartsWith(rel, '/') || StartsWith(dir, '/') then Err(EscapesDirectory) else Ok(rel)
  {
  }

  /** The item a layer is written back as. */
  ghost predicate WrittenBack(l: Layer, item: Item) {
    && LayerPath(l).Ok? && item.from == "file://" + LayerPath(l).value
    && item.typ == l.artifactType && item.platform == l.platform
    && item.annotations.Keys == l.annotations.Keys - {TITLE, CREATED, REFNAME, SOURCE}
    && forall k | k in item.annotations :: item.annotations[k] == l.annotations[k]
  }

  /** Layers that were not packed from a directory come back as an item each, in their order. */
  lemma {:induction false} FilesWrittenBack(dirs: set<string>, layers: seq<Layer>)
    requires forall l | l in layers :: LayerPath(l).Ok? && Note(l.annotations, SOURCE) == ""
    ensures var items := ItemsOf(dirs, layers);
      |items| == |layers| && forall i | 0 <= i < |items| :: WrittenBack(layers[i], items[i])
  {
    if layers != [] {
      var l, rest := layers[0], layers[1..];
      FilesWrittenBack(dirs, rest);
      var items := ItemsOf(dirs, layers);
      assert items
        == [Item(FILE + LayerPath(l).value, l.artifactType, l.platform, Strip(l.annotations) - {TITLE})] + ItemsOf(dirs, rest);
      forall i | 0 <= i < |items| ensures WrittenBack(layers[i], items[i]) {
        if i > 0 { assert items[i] == ItemsOf(dirs, rest)[i - 1] && layers[i] == rest[i - 1]; }
      }
    }
  }

  /** Layers packed from one directory come back as one item, with the type and platform of the first. */
  lemma {:induction false} DirWrittenBack(dirs: set<string>, layers: seq<Layer>, d: string)
    requires d != "" && forall l | l in layers :: LayerPath(l).Ok? && Note(l.annotations, SOURCE) == d
    ensures ItemsOf(dirs, layers) == if layers == [] || d in dirs then []
      else [Item("dir://" + d + "/", layers[0].artifactType, layers[0].platform, map[])]
    decreases |layers|
  {
    if layers != [] {
      DirWrittenBack(dirs + {d}, layers[1..], d);
    }
  }

  // ---------- which packs are accepted ----------

  const SCHEMES := ["file", "dir", "oci", "s3", "s3+http", "http", "https"]

  ghost predicate OfScheme(scheme: string, from: string) {
    exists rest :: from == scheme + ("://" + rest)
  }

  /** A source some handler could be asked for. */
  ghost predicate KnownScheme(from: string) {
    exists n | 0 <= n < |SCHEMES| :: OfScheme(SCHEMES[n], from)
  }

  lemma OfSchemeIs(scheme: string, mark: string, from: string)
    requires mark == scheme + "://"
    ensures OfScheme(scheme, from) <==> mark <= from
  {
    if mark <= from {
      assert from == mark + from[|mark|..] == scheme + ("://" + from[|mark|..]);
    }
    if rest :| from == scheme + ("://" + rest) {
      assert from == mark + rest;
    }
  }

  lemma KnownSchemeIs(from: string)
    ensures ValidSource(from) <==> KnownScheme(from)
  {
    OfSchemeIs("file", FILE, from);
    OfSchemeIs("dir", DIR, from);
    OfSchemeIs("oci", References.OCI + References.MARK, from);
    OfSchemeIs("s3", "s3://", from);
    OfSchemeIs("s3+http", "s3+http://", from);
    OfSchemeIs("http", "http://", from);
    OfSchemeIs("https", "https://", from);
    EachScheme(from);
  }

  lemma EachScheme(from: string)
    ensures KnownScheme(from) <==>
      || OfScheme("file", from) || OfScheme("dir", from) || OfScheme("oci", from) || OfScheme("s3", from)
      || OfScheme("s3+http", from) || OfScheme("http", from) || OfScheme("https", from)
  {
    assert SCHEMES[0] == "file" && SCHEMES[1] == "dir" && SCHEMES[2] == "oci" && SCHEMES[3] == "s3";
    assert SCHEMES[4] == "s3+http" && SCHEMES[5] == "http" && SCHEMES[6] == "https";
  }

  /** A pack as its author has to write it: it has items; its repository, where it names one, and its oci:// items can
      be read as items; its sources, of items and configs, are of a known scheme; and it gives no config to an image it
      mounts, nor to the whole once an item is mounted or placed on a platform. */
  ghost predicate WellWritten(valid: string -> bool, p: PackFile) {
    && |p.items| > 0
    && (p.repository != "" ==> References.ParseItem(valid, "oci://" + p.repository).Ok?)
    && (forall i | i in p.items :: KnownScheme(i.item.from))
    && (forall i | i in p.items && i.config.Some? :: KnownScheme(i.config.value.from) && !("oci://" <= i.item.from))
    && (forall i | i in p.items && "oci://" <= i.item.from :: References.ParseItem(valid, i.item.from).Ok?)
    && (p.config.Some? ==> KnownScheme(p.config.value.from))
    && (p.config.Some? ==> forall i | i in p.items :: !("oci://" <= i.item.from) && i.item.platform == "")
  }

  /** Build goes on exactly with such packs. */
  lemma AcceptedIff(valid: string -> bool, p: PackFile)
    ensures Acceptable(valid, p) <==> WellWritten(valid, p)
  {
    ReferenceGrammar.OciText(p.repository);
    forall from: string ensures ValidSource(from) <==> KnownScheme(from) { KnownSchemeIs(from); }
    ItemsByPlace(valid, p.items);
  }

  lemma ItemsByPlace(valid: string -> bool, items: seq<PackItem>)
    ensures ItemsAreValid(valid, items) <==> forall i | i in items :: ItemIsValid(valid, i)
    ensures AllFit(items) <==> forall i | i in items :: Building.Fits(i)
    ensures IndexExpected(items) <==> exists i :: i in items && NeedsIndex(i)
  {
    forall n | 0 <= n < |items| ensures items[n] in items {}
  }
}
