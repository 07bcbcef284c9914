/**
 * Building a pack (builder.go) and pushing it (pusher.go): slots filled by whichever
 * goroutine finishes, in any order, and documents committed once all they name is there.
 * The bodies run one after another here, in every order; their interleavings are Transfer's.
 */
module Building {
  import opened Wrappers
  import opened Strings
  import opened Packing
  import References

  /** An item of a pack file, with the config it may carry for the member it becomes. */
  datatype PackItem = PackItem(item: Item, config: Option<Item>)

  datatype PackFile = PackFile(repository: string, typ: string, config: Option<Item>, items: seq<PackItem>)

  /** A file a download was saved to. */
  datatype Saved = Saved(path: string, digest: Digest)

  /** What a pack is built from: the machine, the files, and what a URL delivers. */
  datatype World = World(host: Host, tree: Tree, web: string -> Result<Saved, Error>)

  /** A blob stands for its digest: a document is the term of what it names. */
  datatype Blob =
    | Bytes(digest: Digest)
    | Manifest(typ: string, config: Layer, layers: seq<Layer>)
    | Index(typ: string, members: seq<Member>)

  datatype Member = Member(doc: Blob, typ: string, platform: string, annotations: map<string, string>)

  const NO_CONFIG := Layer("application/vnd.oci.empty.v1+json", EMPTY_CONFIG, "", "", map[])

  // ---------- resolving the items ----------

  predicate IsHttp(from: string) { "https://" <= from || "http://" <= from }
  predicate IsOci(from: string) { References.OCI + References.MARK <= from }
  predicate IsS3(from: string) { "s3://" <= from || "s3+http://" <= from }

  predicate ValidSource(from: string): (ok: bool)
    ensures ok ==> from != ""
  {
    IsFile(from) || IsDir(from) || IsOci(from) || IsS3(from) || IsHttp(from)
  }

  /** What an item comes to: layers, or an image to mount as it is. */
  datatype Content = Built(layers: seq<Layer>) | Mounted(from: string)

  /** A downloaded file keeps the item's own annotations and type: it gets no title. */
  function HttpLayer(w: World, item: Item): Result<Layer, Error> {
    match w.web(item.from)
    case Err(e) => Err(e)
    case Ok(saved) =>
      Ok(Layer(ResolveFileMediaType(w.host.mime, saved.path), saved.digest, item.typ, "", item.annotations))
  }

  function Handled(w: World, item: Item): Result<Content, Error>
    requires Walks(w.host)
  {
    if IsHttp(item.from) then
      match HttpLayer(w, item)
      case Err(e) => Err(e)
      case Ok(l) => Ok(Built([l]))
    else if IsFile(item.from) || IsDir(item.from) then
      match ItemLayers(w.host, w.tree, item)
      case Err(e) => Err(e)
      case Ok(layers) => Ok(Built(layers))
    else if IsOci(item.from) then Ok(Mounted(item.from))
    else Err(Unsupported)
  }

  /** The items resolved one by one. */
  function AllHandled(w: World, items: seq<PackItem>): Result<seq<Content>, Error>
    requires Walks(w.host)
  {
    if items == [] then Ok([])
    else
      match Handled(w, items[0].item)
      case Err(e) => Err(e)
      case Ok(first) =>
        match AllHandled(w, items[1..])
        case Err(e) => Err(e)
        case Ok(more) => Ok([first] + more)
  }

  function LayersOf(c: Content): seq<Layer> {
    if c.Built? then c.layers else []
  }

  function Flatten(parts: seq<Content>): seq<Layer> {
    if parts == [] then [] else LayersOf(parts[0]) + Flatten(parts[1..])
  }

  lemma {:induction false} FlattenAppend(parts: seq<Content>, last: Content)
    ensures Flatten(parts + [last]) == Flatten(parts) + LayersOf(last)
  {
    if parts == [] {
      assert parts + [last] == [last] && [last][1..] == [];
    } else {
      assert (parts + [last])[1..] == parts[1..] + [last];
      FlattenAppend(parts[1..], last);
    }
  }

  predicate Resolved(w: World, item: Item, c: Content)
    requires Walks(w.host)
  {
    Handled(w, item) == Ok(c)
  }

  /** Wherever the parts were computed: they are those of the items resolved one by one. */
  lemma {:induction false} AllResolved(w: World, items: seq<PackItem>, parts: seq<Content>)
    requires Walks(w.host) && |parts| == |items|
    requires forall n | 0 <= n < |items| :: Resolved(w, items[n].item, parts[n])
    ensures AllHandled(w, items) == Ok(parts)
  {
    if items == [] {
      assert parts == [];
    } else {
      var more, rest := items[1..], parts[1..];
      assert Resolved(w, items[0].item, parts[0]);
      forall n | 0 <= n < |more| ensures Resolved(w, more[n].item, rest[n]) {
        assert Resolved(w, items[n + 1].item, parts[n + 1]);
      }
      AllResolved(w, more, rest);
      assert parts == [parts[0]] + rest;
    }
  }

  lemma {:induction false} OneFails(w: World, items: seq<PackItem>, n: nat)
    requires Walks(w.host) && n < |items| && Handled(w, items[n].item).Err?
    ensures AllHandled(w, items).Err?
  {
    if n > 0 {
      OneFails(w, items[1..], n - 1);
    }
  }

  /** For items that are files and directories this is the packing that extraction undoes. */
  lemma {:induction false} LayersAreFlattened(w: World, items: seq<PackItem>, plain: seq<Item>)
    requires Walks(w.host) && |items| == |plain|
    requires forall n | 0 <= n < |items| ::
      items[n].item == plain[n] && !IsHttp(plain[n].from) && (IsFile(plain[n].from) || IsDir(plain[n].from))
    ensures AllHandled(w, items).Ok? <==> Layers(w.host, w.tree, plain).Ok?
    ensures AllHandled(w, items).Ok? ==> Layers(w.host, w.tree, plain) == Ok(Flatten(AllHandled(w, items).value))
  {
    if items == [] {
      assert plain == [] && Flatten([]) == [];
    } else {
      assert forall n | 0 <= n < |items[1..]| :: items[1..][n] == items[n + 1] && plain[1..][n] == plain[n + 1];
      LayersAreFlattened(w, items[1..], plain[1..]);
      assert items[0].item == plain[0];
      FirstHandled(w, items, plain[0]);
      if AllHandled(w, items).Ok? {
        var all := AllHandled(w, items).value;
        assert Flatten(all) == LayersOf(all[0]) + Flatten(all[1..]);
      }
    }
  }

  lemma FirstHandled(w: World, items: seq<PackItem>, item: Item)
    requires Walks(w.host) && items != [] && items[0].item == item
    requires !IsHttp(item.from) && (IsFile(item.from) || IsDir(item.from))
    ensures Handled(w, item).Ok? <==> ItemLayers(w.host, w.tree, item).Ok?
    ensures Handled(w, item).Ok? ==> LayersOf(Handled(w, item).value) == ItemLayers(w.host, w.tree, item).value
    ensures AllHandled(w, items).Ok? <==> Handled(w, item).Ok? && AllHandled(w, items[1..]).Ok?
    ensures AllHandled(w, items).Ok? ==> var all := AllHandled(w, items).value;
      all != [] && all[0] == Handled(w, item).value && all[1..] == AllHandled(w, items[1..]).value
  {
  }

  function Numbers(n: nat): (s: set<nat>)
    ensures forall i: nat :: i in s <==> i < n
  {
    if n == 0 then {} else Numbers(n - 1) + {n - 1}
  }

  /** fileHandler, and what pushFile makes of its descriptor. */
  method HandleFile(host: Host, tree: Tree, item: Item) returns (result: Result<seq<Layer>, Error>)
    requires Walks(host) && IsFile(item.from)
    ensures result == ItemLayers(host, tree, item)
  {
    var from := TrimPrefix(item.from, FILE);
    if from == "" || EndsWith(from, '/') || from !in tree { return Err(DoesNotExist); }
    if tree[from].Directory? { return Err(IsADirectory); }
    var typ := item.typ;
    if |typ| == 0 { typ := ResolveFileMediaType(host.mime, from); }
    var annotations := item.annotations;
    annotations := annotations[TITLE := Base(from)];
    return Ok([Layer(ResolveFileMediaType(host.mime, from), tree[from].digest, typ, "", annotations)]);
  }

  /** walkDirHandler: a layer appended for every file the walk visits. */
  method HandleDir(host: Host, tree: Tree, item: Item) returns (result: Result<seq<Layer>, Error>)
    requires Walks(host)
    ensures result == DirLayers(host, tree, item)
  {
    var from := TrimPrefix(item.from, DIR);
    var root := Clean(from);
    if from == "" || (root !in tree && root != ".") { return Err(DoesNotExist); }
    if root != "." && tree[root].File? { return Err(NotADirectory); }
    var walk := host.order(Below(tree, root));
    assert forall i | 0 <= i < |walk| :: walk[i] in walk;
    var layers := Walk(host, tree, item, walk);
    assert layers == DirLayers(host, tree, item).value;
    return Ok(layers);
  }

  method Walk(host: Host, tree: Tree, item: Item, walk: seq<string>) returns (layers: seq<Layer>)
    requires forall i | 0 <= i < |walk| :: walk[i] in tree && tree[walk[i]].File?
    ensures |layers| == |walk| && forall i | 0 <= i < |walk| :: layers[i] == WalkedLayer(host, tree, item, walk[i])
  {
    layers := [];
    for i := 0 to |walk|
      invariant |layers| == i && forall j | 0 <= j < i :: layers[j] == WalkedLayer(host, tree, item, walk[j])
    {
      var l := WalkedLayer(host, tree, item, walk[i]);
      layers := layers + [l];
    }
  }

  method HandleItem(w: World, item: Item) returns (result: Result<Content, Error>)
    requires Walks(w.host)
    ensures result == Handled(w, item)
  {
    if IsHttp(item.from) {
      var saved := w.web(item.from);
      if saved.Err? { return Err(saved.error); }
      var media := ResolveFileMediaType(w.host.mime, saved.value.path);
      return Ok(Built([Layer(media, saved.value.digest, item.typ, "", item.annotations)]));
    }
    if IsFile(item.from) {
      var layers := HandleFile(w.host, w.tree, item);
      return if layers.Ok? then Ok(Built(layers.value)) else Err(layers.error);
    }
    if IsDir(item.from) {
      var layers := HandleDir(w.host, w.tree, item);
      return if layers.Ok? then Ok(Built(layers.value)) else Err(layers.error);
    }
    if IsOci(item.from) { return Ok(Mounted(item.from)); }
    return Err(Unsupported);
  }

  /** The items that failed, in the order they did: each with its own error. */
  ghost predicate Failed(w: World, items: seq<PackItem>, failed: seq<nat>)
    requires Walks(w.host)
  {
    forall i | 0 <= i < |failed| :: failed[i] < |items| && Handled(w, items[failed[i]].item).Err?
  }

  /** One of them failed before all others, with this error. */
  ghost predicate FirstFailed(w: World, items: seq<PackItem>, failed: seq<nat>, e: Error)
    requires Walks(w.host)
  {
    Failed(w, items, failed) && failed != [] && Handled(w, items[failed[0]].item) == Err(e)
  }

  /** eachItem: every item fills its own slot, in any order; once one has failed the others may still
      be resolved or be cancelled. The failure is that of the item that failed first. */
  method EachItem(w: World, items: seq<PackItem>, perItem: array<Content>)
    returns (failure: Option<Error>, ghost failed: seq<nat>)
    requires Walks(w.host) && perItem.Length == |items|
    modifies perItem
    ensures failure.None? ==> forall n | 0 <= n < |items| :: Resolved(w, items[n].item, perItem[n])
    ensures failure.None? ==> failed == []
    ensures failure.Some? ==> FirstFailed(w, items, failed, failure.value)
  {
    var pending := Numbers(|items|);
    failure, failed := None, [];
    while pending != {}
      invariant forall n | n in pending :: n < |items|
      invariant failure.None? ==> forall n | 0 <= n < |items| && n !in pending :: Resolved(w, items[n].item, perItem[n])
      invariant Failed(w, items, failed) && (failure.Some? <==> failed != [])
      invariant failure.Some? ==> Handled(w, items[failed[0]].item) == Err(failure.value)
      decreases pending
    {
      var n :| n in pending;
      pending := pending - {n};
      var cancelled: bool := *;
      if failure.None? || !cancelled {
        var handled := HandleItem(w, items[n].item);
        match handled {
          case Ok(content) => perItem[n] := content;
          case Err(e) =>
            failed := failed + [n];
            if failure.None? { failure := Some(e); }
        }
      }
    }
  }

  /** makeManifest: the slots flattened in the pack file's order. The result is that of resolving the
      items one by one, and an error is that of the item that failed first. */
  method MakeManifest(w: World, items: seq<PackItem>) returns (result: Result<seq<Layer>, Error>, ghost failed: seq<nat>)
    requires Walks(w.host)
    ensures result.Ok? <==> AllHandled(w, items).Ok?
    ensures result.Ok? ==> result.value == Flatten(AllHandled(w, items).value)
    ensures result.Err? ==> FirstFailed(w, items, failed, result.error)
  {
    var perItem := new Content[|items|](_ => Built([]));
    var failure;
    failure, failed := EachItem(w, items, perItem);
    if failure.Some? {
      OneFails(w, items, failed[0]);
      result := Err(failure.value);
      return;
    }
    ghost var parts := perItem[..];
    AllResolved(w, items, parts);
    var layers := [];
    for n := 0 to perItem.Length
      invariant perItem[..] == parts
      invariant layers == Flatten(perItem[..n])
    {
      layers := layers + LayersOf(perItem[n]);
      FlattenAppend(perItem[..n], perItem[n]);
      assert perItem[..n] + [perItem[n]] == perItem[..n + 1];
    }
    assert perItem[..] == perItem[..perItem.Length];
    result := Ok(layers);
  }

  /** What is to be pushed for one item of an index: its content, the type and platform it names or takes
      from the pack, and its config. */
  datatype Source = Source(item: Item, typ: string, config: Option<Item>, content: Content)

  predicate SourceIs(w: World, typ: string, p: PackItem, s: Source)
    requires Walks(w.host)
  {
    && Resolved(w, p.item, s.content) && s.item == p.item && s.config == p.config
    && s.typ == if p.item.typ == "" && !IsOci(p.item.from) then typ else p.item.typ
  }

  function SourceOf(typ: string, p: PackItem, content: Content): Source {
    Source(p.item, if p.item.typ == "" && !IsOci(p.item.from) then typ else p.item.typ, p.config, content)
  }

  function Sources(typ: string, items: seq<PackItem>, parts: seq<Content>): seq<Source>
    requires |parts| == |items|
  {
    seq(|items|, n requires 0 <= n < |items| => SourceOf(typ, items[n], parts[n]))
  }

  lemma SourcesAre(w: World, typ: string, items: seq<PackItem>, parts: seq<Content>)
    requires Walks(w.host) && |parts| == |items|
    requires forall n | 0 <= n < |items| :: Resolved(w, items[n].item, parts[n])
    ensures forall n | 0 <= n < |items| :: SourceIs(w, typ, items[n], Sources(typ, items, parts)[n])
  {
  }

  /** makeIndex: the members in the pack file's order, whatever finished first. */
  method MakeIndex(w: World, typ: string, items: seq<PackItem>)
    returns (result: Result<seq<Source>, Error>, ghost failed: seq<nat>)
    requires Walks(w.host)
    ensures result.Ok? <==> AllHandled(w, items).Ok?
    ensures result.Ok? ==> |result.value| == |items|
    ensures result.Ok? ==> forall n | 0 <= n < |items| :: SourceIs(w, typ, items[n], result.value[n])
    ensures result.Err? ==> FirstFailed(w, items, failed, result.error)
  {
    var perItem := new Content[|items|](_ => Built([]));
    var failure;
    failure, failed := EachItem(w, items, perItem);
    if failure.Some? {
      OneFails(w, items, failed[0]);
      result := Err(failure.value);
      return;
    }
    ghost var parts := perItem[..];
    assert AllHandled(w, items).Ok? by { AllResolved(w, items, parts); }
    SourcesAre(w, typ, items, parts);
    result := Ok(Sources(typ, items, perItem[..]));
  }

  // ---------- pushing ----------

  /** What pushConfig sends: the empty config, or the file the config names; anything else is no file. */
  function ConfigLayer(w: World, config: Option<Item>): Result<Layer, Error> {
    if config.None? then Ok(NO_CONFIG)
    else
      var item := config.value;
      var from := TrimPrefix(item.from, FILE);
      if !IsFile(item.from) || from !in w.tree || w.tree[from].Directory? then Err(DoesNotExist)
      else Ok(Layer(ResolveFileMediaType(w.host.mime, from), w.tree[from].digest, item.typ, "", item.annotations))
  }

  /** The config of a document, over the files there are: the empty one where none was asked for, and otherwise
      the file's own bytes, under the type of its name, with what the pack file says of it. */
  ghost predicate ConfigIs(w: World, config: Option<Item>, c: Layer) {
    match config
    case None => c == Layer("application/vnd.oci.empty.v1+json", EMPTY_CONFIG, "", "", map[])
    case Some(item) => exists path :: item.from == "file://" + path && ConfigFile(w, item, path, c)
  }

  ghost predicate ConfigFile(w: World, item: Item, path: string, c: Layer) {
    && path in w.tree && w.tree[path].File? && c.digest == w.tree[path].digest
    && c.media == ResolveFileMediaType(w.host.mime, path)
    && c.artifactType == item.typ && c.platform == "" && c.annotations == item.annotations
  }

  /** That is what pushConfig sends, and it fails exactly where there is no such file. */
  lemma ConfigLayerIs(w: World, config: Option<Item>, c: Layer)
    ensures ConfigLayer(w, config) == Ok(c) <==> ConfigIs(w, config, c)
  {
    if config.Some? {
      var item, from := config.value, TrimPrefix(config.value.from, FILE);
      if ConfigLayer(w, config) == Ok(c) { assert item.from == "file://" + from && ConfigFile(w, item, from, c); }
      if path :| item.from == "file://" + path && ConfigFile(w, item, path, c) { assert from == path; }
    }
  }

  /** All that a document names is there. */
  ghost predicate NamedIn(b: Blob, blobs: set<Blob>) {
    match b
    case Bytes(_) => true
    case Manifest(_, config, layers) => Bytes(config.digest) in blobs && forall l | l in layers :: Bytes(l.digest) in blobs
    case Index(_, members) => forall m | m in members :: m.doc in blobs
  }

  /** An image in its own right, under the item's type and annotations where it has any. */
  ghost predicate MountedAs(image: Image, item: Item, m: Member) {
    && m.doc == image.doc && m.typ == (if item.typ == "" then image.typ else item.typ) && m.platform == item.platform
    && m.annotations.Keys == image.annotations.Keys + item.annotations.Keys
    && forall k | k in m.annotations ::
      m.annotations[k] == if k in item.annotations then item.annotations[k] else image.annotations[k]
  }

  /** All that any document of the destination names is there. */
  ghost predicate Complete(blobs: set<Blob>) {
    forall b | b in blobs :: NamedIn(b, blobs)
  }

  /** An image of the destination's registry, as mounting it brings it in: with all it names. */
  datatype Image = Image(doc: Blob, typ: string, annotations: map<string, string>, content: set<Blob>)

  datatype Answer = Stored | AlreadyThere | Refused

  /** A mounted member is the image itself, under the item's type and annotations where it has any. */
  function MountedMember(image: Image, item: Item): Member {
    Member(image.doc, if item.typ == "" then image.typ else item.typ, item.platform, image.annotations + item.annotations)
  }

  function BuiltMember(s: Source, config: Layer): Member {
    Member(Manifest(s.typ, config, LayersOf(s.content)), s.typ, s.item.platform, map[])
  }

  function FirstOf(problems: seq<Problem>): Option<Problem> {
    if problems == [] then None else Some(problems[0])
  }

  /** What the config of a manifest can be blamed for, besides the destination. */
  function ConfigProblems(w: World, config: Option<Item>): set<Problem> {
    {Refusal} + match ConfigLayer(w, config) { case Ok(_) => {} case Err(e) => {BadConfig(e)} }
  }

  /** Why a pack came to nothing. */
  datatype Problem =
    | Unacceptable
    | Unresolved(error: Error)
    | Refusal
    | BadConfig(error: Error)
    | BadReference(reason: References.Error)
    | BadPlatform

  class Destination {
    const images: References.Reference -> Option<Image>
    const valid: string -> bool
    const parses: string -> bool
    var blobs: set<Blob>
    // The answer to the last push.
    var answer: Answer
    // What the pack's budget keeps, the failure recorded first; and all that failed, in order.
    var failure: Option<Problem>
    ghost var problems: seq<Problem>

    ghost predicate Valid()
      reads this
    {
      && Complete(blobs) && failure == FirstOf(problems)
      && forall ref :: images(ref).Some? ==>
        Complete(images(ref).value.content) && images(ref).value.doc in images(ref).value.content
    }

    /** Record: only the first failure is kept. */
    method Record(problem: Problem)
      requires failure == FirstOf(problems)
      modifies this`failure, this`problems
      ensures problems == old(problems) + [problem] && failure == FirstOf(problems)
    {
      if failure.None? { failure := Some(problem); }
      problems := problems + [problem];
    }

    /** What failed since then, all of it of this kind. */
    ghost predicate Since(before: seq<Problem>, own: set<Problem>)
      reads this
    {
      before <= problems && forall i | |before| <= i < |problems| :: problems[i] in own
    }

    /** A push: stored, there already, or refused. */
    method Push(b: Blob)
      modifies this`blobs, this`answer
      ensures answer == AlreadyThere ==> b in old(blobs)
      ensures blobs == if answer == Stored then old(blobs) + {b} else old(blobs)
    {
      var accepts: bool := *;
      if !accepts {
        answer := Refused;
      } else if b in blobs {
        answer := AlreadyThere;
      } else {
        blobs, answer := blobs + {b}, Stored;
      }
    }

    /** upload: that the destination has the blob already is the success it is, and no failure is filed
        for it. Whenever this succeeds the blob is there. */
    method Upload(b: Blob) returns (ok: bool)
      requires failure == FirstOf(problems)
      modifies this`blobs, this`answer, this`failure, this`problems
      ensures ok <==> answer != Refused
      ensures ok ==> b in blobs && problems == old(problems)
      ensures blobs == old(blobs) + (if ok then {b} else {})
      ensures !ok ==> problems == old(problems) + [Refusal]
      ensures failure == FirstOf(problems)
    {
      Push(b);
      ok := answer == Stored || answer == AlreadyThere;
      if !ok { Record(Refusal); }
    }

    /** What one of a manifest's descriptors names. */
    method PushPart(part: Result<Layer, Error>) returns (desc: Option<Layer>)
      requires Valid()
      modifies this`blobs, this`answer, this`failure, this`problems
      ensures Valid() && old(blobs) <= blobs
      ensures desc.Some? ==> part == Ok(desc.value) && Bytes(desc.value.digest) in blobs && problems == old(problems)
      ensures desc.None? ==> problems == old(problems) + [if part.Err? then BadConfig(part.error) else Refusal]
      ensures forall b | b in blobs && b !in old(blobs) :: b.Bytes?
    {
      if part.Err? {
        Record(BadConfig(part.error));
        return None;
      }
      var ok := Upload(Bytes(part.value.digest));
      return if ok then Some(part.value) else None;
    }

    /** The config and the layers, each into its slot, in any order: all of them or nothing. */
    method PushParts(w: World, config: Option<Item>, descriptors: seq<Layer>) returns (parts: Option<(Layer, seq<Layer>)>)
      requires Valid()
      modifies this`blobs, this`answer, this`failure, this`problems
      ensures Valid() && old(blobs) <= blobs && Since(old(problems), ConfigProblems(w, config))
      ensures parts.Some? ==> ConfigLayer(w, config) == Ok(parts.value.0) && parts.value.1 == descriptors
      ensures parts.Some? ==> NamedIn(Manifest("", parts.value.0, descriptors), blobs)
      ensures parts.None? <==> |problems| > |old(problems)|
      ensures forall b | b in blobs && b !in old(blobs) :: b.Bytes?
    {
      var slots := new Layer[|descriptors|](_ => NO_CONFIG);
      var configured := NO_CONFIG;
      var pending := Numbers(|descriptors| + 1);
      var failed := false;
      while pending != {}
        invariant fresh(slots) && Valid() && old(blobs) <= blobs
        invariant forall n | n in pending :: 0 <= n <= |descriptors|
        invariant Since(old(problems), ConfigProblems(w, config)) && (failed <==> |problems| > |old(problems)|)
        invariant forall b | b in blobs && b !in old(blobs) :: b.Bytes?
        invariant !failed && 0 !in pending ==> ConfigLayer(w, config) == Ok(configured) && Bytes(configured.digest) in blobs
        invariant !failed ==> forall i | 0 <= i < |descriptors| && i + 1 !in pending ::
          slots[i] == descriptors[i] && Bytes(descriptors[i].digest) in blobs
        decreases pending
      {
        var n :| n in pending;
        pending := pending - {n};
        var cancelled: bool := *;
        if !failed || !cancelled {
          var desc := PushPart(if n == 0 then ConfigLayer(w, config) else Ok(descriptors[n - 1]));
          if desc.None? {
            failed := true;
          } else if n == 0 {
            configured := desc.value;
          } else {
            slots[n - 1] := desc.value;
          }
        }
      }
      if failed { return None; }
      assert slots[..] == descriptors;
      return Some((configured, slots[..]));
    }

    /** The manifest's config and layers, each into its slot in any order, and then the manifest: as
        listed, and only when every one of them is there. */
    method PushManifest(w: World, typ: string, config: Option<Item>, descriptors: seq<Layer>) returns (result: Option<Blob>)
      requires Valid()
      modifies this`blobs, this`answer, this`failure, this`problems
      ensures Valid() && old(blobs) <= blobs && Since(old(problems), ConfigProblems(w, config))
      ensures result.Some? ==> ConfigLayer(w, config).Ok? && result.value in blobs
      ensures result.Some? ==> result.value.Manifest? && result.value.typ == typ && result.value.layers == descriptors
      ensures result.Some? ==> ConfigIs(w, config, result.value.config)
      ensures result.None? <==> |problems| > |old(problems)|
      ensures result.None? ==> forall b | b in blobs && b !in old(blobs) :: b.Bytes?
      ensures forall b | b in blobs && b !in old(blobs) :: !b.Index?
    {
      var parts := PushParts(w, config, descriptors);
      if parts.None? { return None; }
      ConfigLayerIs(w, config, parts.value.0);
      var doc := Manifest(typ, parts.value.0, parts.value.1);
      var ok := Upload(doc);
      return if ok then Some(doc) else None;
    }

    /** mount: the item names a repository of this very registry. */
    method Mount(item: Item) returns (result: Option<Member>)
      requires Valid()
      modifies this`blobs, this`failure, this`problems
      ensures Valid() && old(blobs) <= blobs
      ensures result.Some? ==> References.ParseItem(valid, item.from).Ok? && problems == old(problems)
      ensures result.Some? ==> var image := images(References.ParseItem(valid, item.from).value);
        image.Some? && result.value == MountedMember(image.value, item) && image.value.doc in blobs
      ensures result.None? ==> blobs == old(blobs)
      ensures result.None? ==> var ref := References.ParseItem(valid, item.from);
        problems == old(problems) + [if ref.Err? then BadReference(ref.error) else Refusal]
    {
      var ref := References.ParseItem(valid, item.from);
      if ref.Err? {
        Record(BadReference(ref.error));
        return None;
      }
      var image := images(ref.value);
      var accepts: bool := *;
      if image.None? || !accepts {
        Record(Refusal);
        return None;
      }
      blobs := blobs + image.value.content;
      return Some(MountedMember(image.value, item));
    }

    /** What a member can be blamed for, besides the destination: its name, its config or its platform. */
    function MemberProblems(w: World, s: Source): set<Problem> {
      (if s.content.Built? then ConfigProblems(w, s.config)
       else {Refusal} + match References.ParseItem(valid, s.item.from) { case Ok(_) => {} case Err(e) => {BadReference(e)} })
      + if s.item.platform != "" && !parses(s.item.platform) then {BadPlatform} else {}
    }

    /** One member of an index: mounted as it is, or built, and then placed on its platform. */
    method PushMember(w: World, s: Source) returns (result: Option<Member>)
      requires Valid()
      modifies this`blobs, this`answer, this`failure, this`problems
      ensures Valid() && old(blobs) <= blobs && Since(old(problems), MemberProblems(w, s))
      ensures result.Some? ==> MemberIs(w, s, result.value) && result.value.doc in blobs
      ensures result.None? <==> |problems| > |old(problems)|
    {
      if s.content.Mounted? {
        result := Mount(s.item);
      } else {
        var doc := PushManifest(w, s.typ, s.config, s.content.layers);
        result := if doc.Some? then Some(BuiltMember(s, doc.value.config)) else None;
      }
      if result.Some? && s.item.platform != "" && !parses(s.item.platform) {
        Record(BadPlatform);
        result := None;
      }
    }

    /** What is pushed for an item of an index. */
    ghost predicate MemberIs(w: World, s: Source, m: Member) {
      && (s.item.platform == "" || parses(s.item.platform))
      && if s.content.Mounted? then
        var ref := References.ParseItem(valid, s.item.from);
        ref.Ok? && images(ref.value).Some? && MountedAs(images(ref.value).value, s.item, m)
      else
        && m.doc.Manifest? && m.doc.typ == s.typ && ConfigIs(w, s.config, m.doc.config) && m.doc.layers == s.content.layers
        && m.typ == s.typ && m.platform == s.item.platform && m.annotations == map[]
    }

    /** What a pack file's item becomes a member as. */
    ghost predicate MemberFor(w: World, typ: string, p: PackItem, m: Member)
      requires Walks(w.host)
    {
      exists s :: SourceIs(w, typ, p, s) && MemberIs(w, s, m)
    }

    ghost predicate MembersAre(w: World, p: PackFile, members: seq<Member>)
      requires Walks(w.host)
    {
      |members| == |p.items| && forall n | 0 <= n < |p.items| :: MemberFor(w, p.typ, p.items[n], members[n])
    }

    /** All that the members of an index can be blamed for. */
    function IndexProblems(w: World, sources: seq<Source>): (problems: set<Problem>)
      ensures forall problem :: problem in problems <==>
        problem == Refusal || exists s :: s in sources && problem in MemberProblems(w, s)
    {
      {Refusal} + set s, problem | s in sources && problem in MemberProblems(w, s) :: problem
    }

    /** The index: every member first, in any order, each into its slot; the members as listed. */
    method PushIndex(w: World, typ: string, sources: seq<Source>) returns (result: Option<Blob>)
      requires Valid()
      modifies this`blobs, this`answer, this`failure, this`problems
      ensures Valid() && old(blobs) <= blobs && Since(old(problems), IndexProblems(w, sources))
      ensures result.Some? ==> result.value.Index? && result.value.typ == typ && result.value in blobs
      ensures result.Some? ==> |result.value.members| == |sources|
      ensures result.Some? ==> forall n | 0 <= n < |sources| :: MemberIs(w, sources[n], result.value.members[n])
      ensures result.None? <==> |problems| > |old(problems)|
    {
      var slots := new Member[|sources|](_ => Member(Bytes(""), "", "", map[]));
      var pending := Numbers(|sources|);
      var failed := false;
      while pending != {}
        invariant fresh(slots) && Valid() && old(blobs) <= blobs
        invariant forall n | n in pending :: 0 <= n < |sources|
        invariant Since(old(problems), IndexProblems(w, sources)) && (failed <==> |problems| > |old(problems)|)
        invariant !failed ==> forall n | 0 <= n < |sources| && n !in pending ::
          MemberIs(w, sources[n], slots[n]) && slots[n].doc in blobs
        decreases pending
      {
        var n :| n in pending;
        pending := pending - {n};
        var cancelled: bool := *;
        if !failed || !cancelled {
          var member := PushMember(w, sources[n]);
          if member.None? {
            failed := true;
          } else {
            slots[n] := member.value;
          }
        }
      }
      if failed { return None; }
      var doc := Index(typ, slots[..]);
      var ok := Upload(doc);
      return if ok then Some(doc) else None;
    }
  }

  // ---------- a whole pack ----------

  predicate ConfigIsValid(config: Option<Item>) { config.Some? ==> ValidSource(config.value.from) }

  /** A source that is known, and names an item where it is an image's. */
  predicate ItemIsValid(valid: string -> bool, i: PackItem) {
    && ValidSource(i.item.from)
    && (IsOci(i.item.from) ==> References.ParseItem(valid, i.item.from).Ok?)
    && ConfigIsValid(i.config)
  }

  predicate ItemsAreValid(valid: string -> bool, items: seq<PackItem>) {
    forall n | 0 <= n < |items| :: ItemIsValid(valid, items[n])
  }

  predicate PackIsValid(valid: string -> bool, p: PackFile) {
    && p.items != []
    && (p.repository != "" ==> References.ParseItem(valid, References.OCI + References.MARK + p.repository).Ok?)
    && ConfigIsValid(p.config)
    && ItemsAreValid(valid, p.items)
  }

  method ValidateConfig(config: Option<Item>) returns (ok: bool)
    ensures ok <==> ConfigIsValid(config)
  {
    if config.None? { return true; }
    if config.value.from == "" { return false; }
    return ValidSource(config.value.from);
  }

  method ValidateItem(valid: string -> bool, i: PackItem) returns (ok: bool)
    ensures ok <==> ItemIsValid(valid, i)
  {
    if i.item.from == "" || !ValidSource(i.item.from) { return false; }
    if IsOci(i.item.from) {
      var ref := References.ParseItem(valid, i.item.from);
      if ref.Err? { return false; }
    }
    ok := ValidateConfig(i.config);
  }

  method ValidateItems(valid: string -> bool, items: seq<PackItem>) returns (ok: bool)
    ensures ok <==> ItemsAreValid(valid, items)
  {
    for n := 0 to |items|
      invariant forall i | 0 <= i < n :: ItemIsValid(valid, items[i])
    {
      ok := ValidateItem(valid, items[n]);
      if !ok { return; }
    }
    return true;
  }

  /** Validate: the pack file itself, and then its items one by one. */
  method Validate(valid: string -> bool, p: PackFile) returns (ok: bool)
    ensures ok <==> PackIsValid(valid, p)
  {
    if |p.items| == 0 { return false; }
    if |p.repository| > 0 {
      var ref := References.ParseItem(valid, References.OCI + References.MARK + p.repository);
      if ref.Err? { return false; }
    }
    ok := ValidateConfig(p.config);
    if !ok { return; }
    ok := ValidateItems(valid, p.items);
  }

  predicate NeedsIndex(i: PackItem) { IsOci(i.item.from) || i.item.platform != "" }

  /** A mounted item, or one for a platform, makes the pack an index. */
  predicate IndexExpected(items: seq<PackItem>) {
    exists n | 0 <= n < |items| :: NeedsIndex(items[n])
  }

  /** A mounted image is the member itself and carries no config. */
  predicate Fits(i: PackItem) { IsOci(i.item.from) ==> i.config.None? }

  predicate AllFit(items: seq<PackItem>) {
    forall n | 0 <= n < |items| :: Fits(items[n])
  }

  /** What Build goes on with. */
  predicate Acceptable(valid: string -> bool, p: PackFile) {
    && PackIsValid(valid, p)
    && (IndexExpected(p.items) ==> p.config.None?)
    && AllFit(p.items)
  }

  method ExpectIndex(items: seq<PackItem>) returns (indexExpected: bool)
    ensures indexExpected <==> IndexExpected(items)
  {
    indexExpected := false;
    for n := 0 to |items|
      invariant indexExpected <==> exists i | 0 <= i < n :: NeedsIndex(items[i])
    {
      if NeedsIndex(items[n]) { indexExpected := true; }
    }
  }

  method Fitting(items: seq<PackItem>) returns (ok: bool)
    ensures ok <==> AllFit(items)
  {
    for n := 0 to |items|
      invariant forall i | 0 <= i < n :: Fits(items[i])
    {
      if !Fits(items[n]) { return false; }
    }
    return true;
  }

  /** Build, up to where the work starts. */
  method Accept(valid: string -> bool, p: PackFile) returns (ok: bool, indexExpected: bool)
    ensures ok <==> Acceptable(valid, p)
    ensures ok ==> indexExpected == IndexExpected(p.items)
  {
    indexExpected := false;
    ok := Validate(valid, p);
    if !ok { return; }
    indexExpected := ExpectIndex(p.items);
    ok := !(indexExpected && p.config.Some?);
    if !ok { return; }
    ok := Fitting(p.items);
  }

  ghost predicate SomeMemberHas(w: World, p: PackFile, dest: Destination, problem: Problem)
    requires Walks(w.host)
  {
    exists n, s :: 0 <= n < |p.items| && SourceIs(w, p.typ, p.items[n], s) && problem in dest.MemberProblems(w, s)
  }

  /** What a pack that was accepted and resolved can still fail for: the destination, a config that is no
      file there, or a platform that does not parse. The names were checked before. */
  ghost predicate PushProblem(w: World, p: PackFile, dest: Destination, problem: Problem)
    requires Walks(w.host)
  {
    && !problem.BadReference? && problem != Unacceptable
    && if IndexExpected(p.items) then problem == Refusal || SomeMemberHas(w, p, dest, problem)
       else problem in ConfigProblems(w, p.config)
  }

  /** How a pack that was accepted comes out: the error is that of the item that failed first, or else of
      whatever failed first in the pushing. */
  ghost predicate Told(w: World, p: PackFile, dest: Destination, result: Result<Blob, Problem>, failed: seq<nat>)
    requires Walks(w.host)
    reads dest
  {
    if AllHandled(w, p.items).Err? then
      result.Err? && result.error.Unresolved? && FirstFailed(w, p.items, failed, result.error.error)
    else
      && (result.Err? <==> dest.problems != [])
      && (result.Err? ==> result.error == dest.problems[0])
      && forall n | 0 <= n < |dest.problems| :: PushProblem(w, p, dest, dest.problems[n])
  }

  /** Build: a manifest of all the items' layers, or an index with a member for every item, in the pack
      file's order whatever finished first; and nothing of it is left half-named. A pack file that is not
      accepted and an item that does not resolve leave the destination as it was. */
  method Build(w: World, p: PackFile, dest: Destination) returns (result: Result<Blob, Problem>, ghost failed: seq<nat>)
    requires Walks(w.host) && dest.Valid()
    modifies dest
    ensures dest.Valid() && old(dest.blobs) <= dest.blobs
    ensures result == Err(Unacceptable) <==> !Acceptable(dest.valid, p)
    ensures Acceptable(dest.valid, p) ==> Told(w, p, dest, result, failed)
    ensures !Acceptable(dest.valid, p) || AllHandled(w, p.items).Err? ==> dest.blobs == old(dest.blobs)
    ensures result.Ok? ==> result.value in dest.blobs
    ensures result.Ok? && !IndexExpected(p.items) ==> IsManifestOf(w, p, result.value)
    ensures result.Ok? && IndexExpected(p.items) ==>
      result.value.Index? && result.value.typ == p.typ && dest.MembersAre(w, p, result.value.members)
    ensures result.Err? && !IndexExpected(p.items) ==> forall b | b in dest.blobs && b !in old(dest.blobs) :: b.Bytes?
  {
    dest.failure, dest.problems, failed := None, [], [];
    var ok, indexExpected := Accept(dest.valid, p);
    if !ok {
      result := Err(Unacceptable);
    } else if indexExpected {
      result, failed := BuildIndex(w, p, dest);
    } else {
      result, failed := BuildManifest(w, p, dest);
    }
  }

  /** The config and all the items' layers, one after the other. */
  ghost predicate IsManifestOf(w: World, p: PackFile, doc: Blob)
    requires Walks(w.host)
  {
    && AllHandled(w, p.items).Ok? && doc.Manifest? && doc.typ == p.typ
    && ConfigIs(w, p.config, doc.config) && doc.layers == Flatten(AllHandled(w, p.items).value)
  }

  method BuildIndex(w: World, p: PackFile, dest: Destination)
    returns (result: Result<Blob, Problem>, ghost failed: seq<nat>)
    requires Walks(w.host) && dest.Valid() && dest.problems == []
    requires Acceptable(dest.valid, p) && IndexExpected(p.items)
    modifies dest
    ensures dest.Valid() && old(dest.blobs) <= dest.blobs && Told(w, p, dest, result, failed)
    ensures AllHandled(w, p.items).Err? ==> dest.blobs == old(dest.blobs)
    ensures result.Err? ==> result.error != Unacceptable
    ensures result.Ok? ==> result.value in dest.blobs && result.value.Index? && result.value.typ == p.typ
    ensures result.Ok? ==> dest.MembersAre(w, p, result.value.members)
  {
    var sources;
    sources, failed := MakeIndex(w, p.typ, p.items);
    if sources.Err? {
      result := Err(Unresolved(sources.error));
      return;
    }
    var pushed := dest.PushIndex(w, p.typ, sources.value);
    forall n | 0 <= n < |dest.problems| ensures PushProblem(w, p, dest, dest.problems[n]) {
      MemberToBlame(w, p, dest, sources.value, dest.problems[n]);
    }
    if pushed.None? {
      result := Err(dest.failure.value);
    } else {
      MembersListed(w, p, dest, sources.value, pushed.value.members);
      result := Ok(pushed.value);
    }
  }

  lemma MemberToBlame(w: World, p: PackFile, dest: Destination, sources: seq<Source>, problem: Problem)
    requires Walks(w.host) && |sources| == |p.items| && PackIsValid(dest.valid, p) && IndexExpected(p.items)
    requires forall n | 0 <= n < |p.items| :: SourceIs(w, p.typ, p.items[n], sources[n])
    requires problem in dest.IndexProblems(w, sources)
    ensures PushProblem(w, p, dest, problem)
  {
    if problem != Refusal {
      var s :| s in sources && problem in dest.MemberProblems(w, s);
      var n :| 0 <= n < |sources| && sources[n] == s;
      assert SourceIs(w, p.typ, p.items[n], s);
      MountsAreNamed(w, p.typ, p.items[n], s, dest, problem);
    }
  }

  /** What is mounted was validated: its name is not at fault. */
  lemma MountsAreNamed(w: World, typ: string, i: PackItem, s: Source, dest: Destination, problem: Problem)
    requires Walks(w.host) && SourceIs(w, typ, i, s) && ItemIsValid(dest.valid, i)
    requires problem in dest.MemberProblems(w, s)
    ensures !problem.BadReference? && problem != Unacceptable
  {
    if s.content.Mounted? {
      assert IsOci(i.item.from);
      assert References.ParseItem(dest.valid, s.item.from).Ok?;
    }
  }

  lemma MembersListed(w: World, p: PackFile, dest: Destination, sources: seq<Source>, members: seq<Member>)
    requires Walks(w.host) && |sources| == |p.items| == |members|
    requires forall n | 0 <= n < |p.items| :: SourceIs(w, p.typ, p.items[n], sources[n])
    requires forall n | 0 <= n < |p.items| :: dest.MemberIs(w, sources[n], members[n])
    ensures dest.MembersAre(w, p, members)
  {
    forall n | 0 <= n < |p.items| ensures dest.MemberFor(w, p.typ, p.items[n], members[n]) {
      assert SourceIs(w, p.typ, p.items[n], sources[n]) && dest.MemberIs(w, sources[n], members[n]);
    }
  }

  method BuildManifest(w: World, p: PackFile, dest: Destination)
    returns (result: Result<Blob, Problem>, ghost failed: seq<nat>)
    requires Walks(w.host) && dest.Valid() && dest.problems == [] && !IndexExpected(p.items)
    modifies dest
    ensures dest.Valid() && old(dest.blobs) <= dest.blobs && Told(w, p, dest, result, failed)
    ensures AllHandled(w, p.items).Err? ==> dest.blobs == old(dest.blobs)
    ensures result.Err? ==> result.error != Unacceptable
    ensures result.Ok? ==> result.value in dest.blobs && IsManifestOf(w, p, result.value)
    ensures result.Err? ==> forall b | b in dest.blobs && b !in old(dest.blobs) :: b.Bytes?
  {
    var layers;
    layers, failed := MakeManifest(w, p.items);
    if layers.Err? {
      result := Err(Unresolved(layers.error));
      return;
    }
    var pushed := dest.PushManifest(w, p.typ, p.config, layers.value);
    result := if pushed.Some? then Ok(pushed.value) else Err(dest.failure.value);
  }
}
