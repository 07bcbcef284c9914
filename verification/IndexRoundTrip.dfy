/** Building an index from files and directories, extracting it and building it again gives the same members,
    and when. */
module IndexRoundTrip {
  import opened Wrappers
  import opened Strings
  import opened Packing
  import opened RoundTrip
  import opened Extraction
  import BuiltIndexes
  import Building

  /** A member built from one item: the type and platform it is listed with, and its manifest's layers. */
  datatype Made = Made(typ: string, platform: string, layers: seq<Layer>)

  function MadeOf(host: Host, tree: Tree, typ: string, item: Item): Result<Made, Error>
    requires Walks(host)
  {
    match ItemLayers(host, tree, item)
    case Err(e) => Err(e)
    case Ok(layers) => Ok(Made(if item.typ == "" then typ else item.typ, item.platform, layers))
  }

  function AllMade(host: Host, tree: Tree, typ: string, items: seq<Item>): Result<seq<Made>, Error>
    requires Walks(host)
  {
    if items == [] then Ok([])
    else
      match MadeOf(host, tree, typ, items[0])
      case Err(e) => Err(e)
      case Ok(m) =>
        match AllMade(host, tree, typ, items[1..])
        case Err(e) => Err(e)
        case Ok(more) => Ok([m] + more)
  }

  function LayersOf(ms: seq<Made>): seq<Layer> {
    if ms == [] then [] else ms[0].layers + LayersOf(ms[1..])
  }

  /** What an extraction writes back for it: its layers' items, typed and placed as it is. */
  function Back(m: Made): seq<Item> {
    BuiltIndexes.PlacedAs(Entry(Manifest, "", m.typ, m.platform, map[]), ItemsOf({}, m.layers))
  }

  function BackAll(ms: seq<Made>): seq<Item> {
    if ms == [] then [] else Back(ms[0]) + BackAll(ms[1..])
  }

  /** The items as a manifest of them would have them: nobody placed on a platform. */
  function Bare(items: seq<Item>): seq<Item> {
    seq(|items|, i requires 0 <= i < |items| => items[i].(platform := ""))
  }

  /** A platform makes no difference to an item's layers, nor does a directory's type. */
  lemma SameLayers(host: Host, tree: Tree, item: Item, other: Item)
    requires Walks(host) && other.from == item.from && (IsFile(item.from) || IsDir(item.from))
    requires IsFile(item.from) ==> other.typ == item.typ && other.annotations == item.annotations
    ensures ItemLayers(host, tree, other) == ItemLayers(host, tree, item)
  {
    if !IsFile(item.from) { DirItemSaysNothing(host, tree, item, other); }
  }

  lemma {:induction false} BareLayers(host: Host, tree: Tree, typ: string, items: seq<Item>)
    requires Walks(host) && AllMade(host, tree, typ, items).Ok?
    requires forall item | item in items :: IsFile(item.from) || IsDir(item.from)
    ensures Layers(host, tree, Bare(items)) == Ok(LayersOf(AllMade(host, tree, typ, items).value))
  {
    if items != [] {
      var rest := items[1..];
      BareLayers(host, tree, typ, rest);
      BareSplits(items);
      SameLayers(host, tree, items[0], Bare(items)[0]);
      MadeSplits(host, tree, typ, items);
    }
  }

  lemma BareSplits(items: seq<Item>)
    requires items != []
    ensures Bare(items) != [] && Bare(items)[0] == items[0].(platform := "") && Bare(items)[1..] == Bare(items[1..])
  {
  }

  lemma MadeSplits(host: Host, tree: Tree, typ: string, items: seq<Item>)
    requires Walks(host) && items != [] && AllMade(host, tree, typ, items).Ok?
    ensures MadeOf(host, tree, typ, items[0]).Ok? && AllMade(host, tree, typ, items[1..]).Ok?
    ensures LayersOf(AllMade(host, tree, typ, items).value) ==
      MadeOf(host, tree, typ, items[0]).value.layers + LayersOf(AllMade(host, tree, typ, items[1..]).value)
  {
    assert AllMade(host, tree, typ, items).value[1..] == AllMade(host, tree, typ, items[1..]).value;
  }

  // ---------- one member ----------

  /** What becomes of a member that is built again from what is on disk: nothing, if it had no layers. */
  function Again(typ: string, m: Made, out: Tree): seq<Made> {
    if m.layers == [] then [] else [Made(TypeAgain(typ, m), m.platform, RereadAll(m.layers, out))]
  }

  /** A file's item comes back with the type of its layer; a directory's with the member's. */
  function TypeAgain(typ: string, m: Made): string
    requires m.layers != []
  {
    if m.layers[0].artifactType != "" then m.layers[0].artifactType else if m.typ != "" then m.typ else typ
  }

  lemma MediaIsNamed(mime: string -> string, p: string)
    ensures ResolveFileMediaType(mime, p) == "" ==> Ext(p) != "" && mime(Ext(p)) != "" && mime(Ext(p))[0] == ';'
  {
  }

  lemma FileMade(host: Host, tree: Tree, out: Tree, item: Item, chunk: seq<Layer>)
    requires Walks(host) && Plain(item) && IsFile(item.from)
    requires ItemLayers(host, tree, item) == Ok(chunk) && Placed(chunk, out)
    ensures |chunk| == 1 && chunk[0].platform == "" && |ItemsOf({}, chunk)| == 1
    ensures chunk[0].artifactType == if item.typ == "" then chunk[0].media else item.typ
    ensures var i := ItemsOf({}, chunk)[0]; IsFile(i.from) && i.typ == chunk[0].artifactType && i.platform == ""
    ensures ItemLayers(host, out, ItemsOf({}, chunk)[0]) == Ok(RereadAll(chunk, out))
  {
    var l, b := chunk[0], Base(TrimPrefix(item.from, FILE));
    assert chunk == [l];
    FileLayerIs(host, tree, item);
    FileItemRepacked(host, tree, out, item, {}, chunk);
    FileLayerNamed(host, tree, item);
    assert l in chunk;
    FileBack(l, item.annotations, b, {});
  }

  lemma DirMade(host: Host, tree: Tree, out: Tree, item: Item, chunk: seq<Layer>)
    requires Walks(host) && Plain(item) && IsDir(item.from)
    requires ItemLayers(host, tree, item) == Ok(chunk) && Placed(chunk, out)
    requires Same(tree, out, item) && chunk != []
    ensures chunk[0].artifactType == ""
    ensures ItemsOf({}, chunk) == [DirItem(DirName(item))]
    ensures ItemLayers(host, out, DirItem(DirName(item))) == Ok(RereadAll(chunk, out))
  {
    DirItemRepacked(host, tree, out, item, {}, chunk);
    DirSources(host, tree, item, chunk);
    DirNamed(item);
    assert chunk[0] in chunk;
    OneDirItem({}, chunk, DirName(item));
  }

  /** One item's member, written back and built again. */
  lemma MadeAgain(host: Host, tree: Tree, out: Tree, typ: string, item: Item, m: Made)
    requires Walks(host) && Plain(item.(platform := "")) && MadeOf(host, tree, typ, item) == Ok(m)
    requires Placed(m.layers, out) && Same(tree, out, item.(platform := ""))
    requires IsFile(item.from) && item.typ == "" ==> m.layers == [] || m.layers[0].media != ""
    ensures AllMade(host, out, typ, Back(m)) == Ok(Again(typ, m, out))
  {
    var bare, chunk := item.(platform := ""), m.layers;
    if IsFile(item.from) {
      SameLayers(host, tree, item, bare);
      FileMade(host, tree, out, bare, chunk);
      OneAgain(host, out, typ, m, ItemsOf({}, chunk)[0]);
    } else if chunk != [] {
      SameLayers(host, tree, item, bare);
      DirMade(host, tree, out, bare, chunk);
      DirItemIs(DirName(bare));
      DirIsNoFile(DirItem(DirName(bare)));
      OneAgain(host, out, typ, m, DirItem(DirName(bare)));
    }
  }

  lemma OneAgain(host: Host, out: Tree, typ: string, m: Made, back: Item)
    requires Walks(host) && m.layers != [] && ItemsOf({}, m.layers) == [back] && back.platform == ""
    requires (IsFile(back.from) && back.typ != "") || (IsDir(back.from) && !IsFile(back.from) && back.typ == "")
    requires back.typ == m.layers[0].artifactType && ItemLayers(host, out, back) == Ok(RereadAll(m.layers, out))
    ensures AllMade(host, out, typ, Back(m)) == Ok(Again(typ, m, out))
  {
    var items := Back(m);
    assert |items| == 1 && items[1..] == [];
    var again := items[0];
    assert again == Item(back.from, if back.typ == "" then m.typ else back.typ, m.platform, back.annotations);
    SameLayers(host, out, back, again);
    var made := Made(TypeAgain(typ, m), m.platform, RereadAll(m.layers, out));
    assert MadeOf(host, out, typ, again) == Ok(made);
    assert AllMade(host, out, typ, []) == Ok([]) && [made] + [] == [made];
    assert AllMade(host, out, typ, items) == Ok([made]);
  }

  // ---------- all of them ----------

  function AllAgain(typ: string, ms: seq<Made>, out: Tree): seq<Made> {
    if ms == [] then [] else Again(typ, ms[0], out) + AllAgain(typ, ms[1..], out)
  }

  /** Every item made, one by one. */
  ghost predicate Makes(host: Host, tree: Tree, typ: string, items: seq<Item>, ms: seq<Made>)
    requires Walks(host)
  {
    |ms| == |items| && forall i | 0 <= i < |items| :: MadeOf(host, tree, typ, items[i]) == Ok(ms[i])
  }

  lemma {:induction false} AllMadeIs(host: Host, tree: Tree, typ: string, items: seq<Item>, ms: seq<Made>)
    requires Walks(host)
    ensures AllMade(host, tree, typ, items) == Ok(ms) <==> Makes(host, tree, typ, items, ms)
  {
    if items != [] && ms != [] {
      AllMadeIs(host, tree, typ, items[1..], ms[1..]);
      assert ms == [ms[0]] + ms[1..];
      if Makes(host, tree, typ, items, ms) {
        forall i | 0 <= i < |items[1..]| ensures MadeOf(host, tree, typ, items[1..][i]) == Ok(ms[1..][i]) {
          assert MadeOf(host, tree, typ, items[i + 1]) == Ok(ms[i + 1]);
        }
      }
      if AllMade(host, tree, typ, items) == Ok(ms) {
        forall i | 0 < i < |items| ensures MadeOf(host, tree, typ, items[i]) == Ok(ms[i]) {
          assert MadeOf(host, tree, typ, items[1..][i - 1]) == Ok(ms[1..][i - 1]);
        }
      }
    }
  }

  lemma MadeAppend(host: Host, out: Tree, typ: string, a: seq<Item>, b: seq<Item>, ma: seq<Made>, mb: seq<Made>)
    requires Walks(host) && Makes(host, out, typ, a, ma) && Makes(host, out, typ, b, mb)
    ensures Makes(host, out, typ, a + b, ma + mb)
  {
    forall i | 0 <= i < |a + b| ensures MadeOf(host, out, typ, (a + b)[i]) == Ok((ma + mb)[i]) {
      if i < |a| {
        assert MadeOf(host, out, typ, a[i]) == Ok(ma[i]);
      } else {
        assert MadeOf(host, out, typ, b[i - |a|]) == Ok(mb[i - |a|]);
      }
    }
  }

  /** Every item is fit to come back, with its layers where extraction put them. */
  ghost predicate Fit(host: Host, tree: Tree, out: Tree, typ: string, item: Item, m: Made)
    requires Walks(host)
  {
    && Plain(item.(platform := "")) && MadeOf(host, tree, typ, item) == Ok(m)
    && Placed(m.layers, out) && Same(tree, out, item.(platform := ""))
    && (IsFile(item.from) && item.typ == "" ==> m.layers == [] || m.layers[0].media != "")
  }

  lemma {:induction false} AllMadeAgain(host: Host, tree: Tree, out: Tree, typ: string, items: seq<Item>, ms: seq<Made>)
    requires Walks(host) && |ms| == |items| && forall i | 0 <= i < |items| :: Fit(host, tree, out, typ, items[i], ms[i])
    ensures Makes(host, out, typ, BackAll(ms), AllAgain(typ, ms, out))
  {
    if items != [] {
      assert Fit(host, tree, out, typ, items[0], ms[0]);
      MadeAgain(host, tree, out, typ, items[0], ms[0]);
      forall i | 0 <= i < |items[1..]| ensures Fit(host, tree, out, typ, items[1..][i], ms[1..][i]) {
        assert Fit(host, tree, out, typ, items[i + 1], ms[i + 1]);
      }
      AllMadeAgain(host, tree, out, typ, items[1..], ms[1..]);
      AllMadeIs(host, out, typ, Back(ms[0]), Again(typ, ms[0], out));
      MadeAppend(host, out, typ, Back(ms[0]), BackAll(ms[1..]), Again(typ, ms[0], out), AllAgain(typ, ms[1..], out));
    }
  }

  ghost predicate SameAgain(typ: string, m: Made, out: Tree) {
    m.layers != [] && TypeAgain(typ, m) == m.typ && RereadAll(m.layers, out) == m.layers
  }

  lemma {:induction false} FewerAgain(typ: string, ms: seq<Made>, out: Tree)
    ensures |AllAgain(typ, ms, out)| <= |ms|
    ensures |AllAgain(typ, ms, out)| == |ms| <==> forall m | m in ms :: m.layers != []
  {
    if ms != [] { FewerAgain(typ, ms[1..], out); assert ms == [ms[0]] + ms[1..]; }
  }

  lemma {:induction false} AllSameIff(typ: string, ms: seq<Made>, out: Tree)
    ensures AllAgain(typ, ms, out) == ms <==> forall m | m in ms :: SameAgain(typ, m, out)
  {
    if ms != [] {
      var again, rest := Again(typ, ms[0], out), AllAgain(typ, ms[1..], out);
      AllSameIff(typ, ms[1..], out);
      FewerAgain(typ, ms[1..], out);
      assert ms == [ms[0]] + ms[1..];
      if AllAgain(typ, ms, out) == ms {
        assert |again| == 1;
        assert (again + rest)[0] == again[0] && (again + rest)[1..] == rest;
      }
      if SameAgain(typ, ms[0], out) { assert again == [ms[0]]; }
    }
  }

  lemma {:induction false} LayersAgain(ms: seq<Made>, out: Tree)
    ensures RereadAll(LayersOf(ms), out) == LayersOf(ms) <==> forall m | m in ms :: RereadAll(m.layers, out) == m.layers
  {
    if ms != [] {
      var first, rest := ms[0].layers, LayersOf(ms[1..]);
      LayersAgain(ms[1..], out);
      RereadAppend(first, rest, out);
      assert ms == [ms[0]] + ms[1..];
      if RereadAll(first + rest, out) == first + rest {
        assert (first + rest)[..|first|] == first && (first + rest)[|first|..] == rest;
        assert RereadAll(first, out) == (RereadAll(first, out) + RereadAll(rest, out))[..|first|];
        assert RereadAll(rest, out) == (RereadAll(first, out) + RereadAll(rest, out))[|first|..];
      }
    }
  }

  lemma {:induction false} MadeAre(host: Host, tree: Tree, typ: string, items: seq<Item>, i: nat)
    requires Walks(host) && AllMade(host, tree, typ, items).Ok? && i < |items|
    ensures var ms := AllMade(host, tree, typ, items).value;
      |ms| == |items| && MadeOf(host, tree, typ, items[i]) == Ok(ms[i]) && forall l | l in ms[i].layers :: l in LayersOf(ms)
  {
    MadeMany(host, tree, typ, items);
    var ms := AllMade(host, tree, typ, items).value;
    if i > 0 { MadeAre(host, tree, typ, items[1..], i - 1); }
  }

  lemma {:induction false} MadeMany(host: Host, tree: Tree, typ: string, items: seq<Item>)
    requires Walks(host) && AllMade(host, tree, typ, items).Ok?
    ensures |AllMade(host, tree, typ, items).value| == |items|
  {
    if items != [] { MadeMany(host, tree, typ, items[1..]); }
  }

  /** Where the machine knows a type for an extension it says which. */
  ghost predicate TypesAreNamed(mime: string -> string) {
    forall ext {:trigger mime(ext)} :: mime(ext) != "" ==> mime(ext)[0] != ';'
  }

  lemma AllFit(host: Host, tree: Tree, typ: string, items: seq<Item>, packFile: Digest)
    requires Walks(host) && TypesAreNamed(host.mime) && Authored(Bare(items)) && AllMade(host, tree, typ, items).Ok?
    requires Packing.Extract(LayersOf(AllMade(host, tree, typ, items).value), packFile).Ok?
    ensures var ms := AllMade(host, tree, typ, items).value;
      var out := Packing.Extract(LayersOf(ms), packFile).value.tree;
      |ms| == |items| && forall i | 0 <= i < |items| :: Fit(host, tree, out, typ, items[i], ms[i])
  {
    var ms := AllMade(host, tree, typ, items).value;
    var out := Packing.Extract(LayersOf(ms), packFile).value.tree;
    MadeMany(host, tree, typ, items);
    SourcesKnown(items);
    BareLayers(host, tree, typ, items);
    ExtractLeaves(LayersOf(ms), packFile);
    forall i | 0 <= i < |items| ensures Fit(host, tree, out, typ, items[i], ms[i]) {
      MadeAre(host, tree, typ, items, i);
      assert Bare(items)[i] in Bare(items);
      SameAfter(host, tree, Bare(items), packFile, Bare(items)[i]);
      if IsFile(items[i].from) {
        FileLayerIs(host, tree, items[i]);
        MediaIsNamed(host.mime, TrimPrefix(items[i].from, FILE));
      }
    }
  }

  lemma SourcesKnown(items: seq<Item>)
    requires Authored(Bare(items))
    ensures forall item | item in items :: IsFile(item.from) || IsDir(item.from)
  {
    forall item | item in items ensures IsFile(item.from) || IsDir(item.from) {
      var i :| 0 <= i < |items| && items[i] == item;
      assert Bare(items)[i] in Bare(items);
    }
  }

  /** Building an index of files and directories, extracting it into an empty directory and building it again gives
      the very same members (order, type, platform and layers) exactly when every item had files, files that meet in
      one place hold the same bytes, none takes the place of the pack file, and every file that says nothing of its
      type is of the type the whole pack is of. */
  lemma BuildExtractBuild(host: Host, tree: Tree, typ: string, items: seq<Item>, packFile: Digest)
    requires Walks(host) && TypesAreNamed(host.mime) && Authored(Bare(items)) && AllMade(host, tree, typ, items).Ok?
    requires Packing.Extract(LayersOf(AllMade(host, tree, typ, items).value), packFile).Ok?
    ensures var ms := AllMade(host, tree, typ, items).value;
      var out := Packing.Extract(LayersOf(ms), packFile).value.tree;
      |ms| == |items| &&
      (AllMade(host, out, typ, BackAll(ms)) == Ok(ms) <==>
        && (forall i | 0 <= i < |items| :: ms[i].layers != [])
        && Agree(LayersOf(ms)) && PackFileKept(LayersOf(ms), packFile)
        && (forall i | 0 <= i < |items| && IsFile(items[i].from) && items[i].typ == "" :: ms[i].layers[0].media == typ))
  {
    var ms := AllMade(host, tree, typ, items).value;
    var out := Packing.Extract(LayersOf(ms), packFile).value.tree;
    AllFit(host, tree, typ, items, packFile);
    AllMadeAgain(host, tree, out, typ, items, ms);
    AllMadeIs(host, out, typ, BackAll(ms), AllAgain(typ, ms, out));
    AllSameIff(typ, ms, out);
    LayersAgain(ms, out);
    PlacesKept(host, tree, typ, items, packFile);
    if forall i | 0 <= i < |items| :: ms[i].layers != [] {
      forall i | 0 <= i < |items|
        ensures TypeAgain(typ, ms[i]) == ms[i].typ <==> (IsFile(items[i].from) && items[i].typ == "" ==> ms[i].layers[0].media == typ)
      {
        assert Fit(host, tree, out, typ, items[i], ms[i]);
        TypeComesBack(host, tree, out, typ, items[i], ms[i]);
      }
    }
    SameEach(host, tree, out, typ, items, ms);
  }

  /** A file's type comes back if it was said or is the pack's own; a directory's always does. */
  lemma TypeComesBack(host: Host, tree: Tree, out: Tree, typ: string, item: Item, m: Made)
    requires Walks(host) && Fit(host, tree, out, typ, item, m) && m.layers != []
    ensures TypeAgain(typ, m) == m.typ <==> (IsFile(item.from) && item.typ == "" ==> m.layers[0].media == typ)
  {
    var bare := item.(platform := "");
    SameLayers(host, tree, item, bare);
    if IsFile(item.from) {
      FileMade(host, tree, out, bare, m.layers);
    } else {
      DirMade(host, tree, out, bare, m.layers);
    }
  }

  lemma SameEach(host: Host, tree: Tree, out: Tree, typ: string, items: seq<Item>, ms: seq<Made>)
    requires Walks(host) && |ms| == |items|
    ensures (forall m | m in ms :: SameAgain(typ, m, out)) <==>
      && (forall i | 0 <= i < |items| :: ms[i].layers != [])
      && (forall m | m in ms :: RereadAll(m.layers, out) == m.layers)
      && (forall i | 0 <= i < |items| :: ms[i].layers != [] ==> TypeAgain(typ, ms[i]) == ms[i].typ)
  {
    if forall m | m in ms :: SameAgain(typ, m, out) {
      forall i | 0 <= i < |items| ensures SameAgain(typ, ms[i], out) { assert ms[i] in ms; }
    } else {
      var m :| m in ms && !SameAgain(typ, m, out);
      var i :| 0 <= i < |ms| && ms[i] == m;
    }
  }

  lemma PlacesKept(host: Host, tree: Tree, typ: string, items: seq<Item>, packFile: Digest)
    requires Walks(host) && Authored(Bare(items)) && AllMade(host, tree, typ, items).Ok?
    requires Packing.Extract(LayersOf(AllMade(host, tree, typ, items).value), packFile).Ok?
    ensures var layers := LayersOf(AllMade(host, tree, typ, items).value);
      var out := Packing.Extract(layers, packFile).value.tree;
      RereadAll(layers, out) == layers <==> Agree(layers) && PackFileKept(layers, packFile)
  {
    var layers := LayersOf(AllMade(host, tree, typ, items).value);
    SourcesKnown(items);
    BareLayers(host, tree, typ, items);
    ExtractLeaves(layers, packFile);
    forall l | l in layers ensures LayerPath(l) == Ok(Place(l)) {
      var item := LayerFrom(host, tree, Bare(items), l);
      LayerPlace(host, tree, item, l);
    }
    RereadSame(layers, Packing.Extract(layers, packFile).value.tree, packFile);
  }

  // ---------- the same of what is pushed and of what is extracted ----------

  /** What a build lists for a file or a directory without a config is what is made of it here. */
  lemma MemberIsMade(w: Building.World, typ: string, dest: Building.Destination, p: Building.PackItem, m: Building.Member)
    requires Walks(w.host) && dest.MemberFor(w, typ, p, m) && p.config.None?
    requires !Building.IsHttp(p.item.from) && !Building.IsOci(p.item.from)
    ensures m.doc.Manifest? && MadeOf(w.host, w.tree, typ, p.item) == Ok(Made(m.typ, m.platform, m.doc.layers))
    ensures m == Building.Member(Building.Manifest(m.typ, Building.NO_CONFIG, m.doc.layers), m.typ, m.platform, map[])
  {
    var s :| Building.SourceIs(w, typ, p, s) && dest.MemberIs(w, s, m);
    assert Building.Resolved(w, p.item, s.content);
    BuiltIndexes.HandledAs(w, p.item);
  }

  ghost predicate IsMade(store: Store, nameBy: string, e: Entry, m: Made) {
    && BuiltIndexes.IsBuilt(store, nameBy, e) && store[e.digest].layers == m.layers
    && e.artifactType == m.typ && e.platform == m.platform
  }

  /** And what an extraction writes back for such members is what is written back here. */
  lemma {:induction false} BackIsWrittenBack(store: Store, nameBy: string, repo: string, es: seq<Entry>, ms: seq<Made>)
    requires |es| == |ms| && forall i | 0 <= i < |es| :: IsMade(store, nameBy, es[i], ms[i])
    ensures BuiltIndexes.BackItems(store, nameBy, repo, es) == BackAll(ms)
  {
    if es != [] {
      assert IsMade(store, nameBy, es[0], ms[0]);
      forall i | 0 <= i < |es[1..]| ensures IsMade(store, nameBy, es[1..][i], ms[1..][i]) {
        assert IsMade(store, nameBy, es[i + 1], ms[i + 1]);
      }
      BackIsWrittenBack(store, nameBy, repo, es[1..], ms[1..]);
      assert BuiltIndexes.PlacedAs(es[0], ItemsOf({}, ms[0].layers)) == Back(ms[0]);
    }
  }
}
