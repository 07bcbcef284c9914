/** Which texts are references, and to what: said of the text alone (pkg/registry/reference/parse.go). */
module ReferenceGrammar {
  import opened Wrappers
  import opened Strings
  import opened References

  /** Something before the first slash names a registry. */
  ghost predicate BeginsWithHost(rest: string) {
    exists host, more :: HostName(host) && rest == host + "/" + more
  }

  lemma BeginsWithHostIff(rest: string)
    ensures BeginsWithHost(rest) <==> '/' in rest && HostName(First(rest))
    ensures '/' in rest ==> (Classify(rest) == Registry <==> BeginsWithHost(rest))
  {
    if '/' in rest {
      HostSplitOff(rest);
      if First(rest) != "" {
        HostDecides(First(rest), rest[|First(rest)| + 1..]);
        HostIsRegistry(First(rest));
      } else {
        assert rest[0] == '/';
      }
    }
    forall host, more | HostName(host) && rest == host + "/" + more ensures First(rest) == host && '/' in rest {
      FirstOf(host, more);
    }
  }

  lemma OciText(rest: string)
    ensures OCI + MARK + rest == "oci://" + rest
  {
    assert OCI + MARK == "oci://";
  }

  // ---------- a reference to an artifact ----------

  /** s spells r: the scheme, the host and a slash if there is one, the repository, and a tag or a digest or
      nothing, which stands for latest. There is no empty part in it, and a host is there exactly when the text
      begins with what names a registry. */
  ghost predicate Spells(valid: string -> bool, s: string, r: Reference, t: string) {
    && r.scheme == "oci" && Repository(r.path) && Tail(valid, t, r.ref)
    && var rest := HostPart(r.host) + (r.path + t);
      s == "oci://" + rest && !DoubleSlash(rest) && if r.host != "" then HostName(r.host) else !BeginsWithHost(rest)
  }

  /** Parse accepts exactly the texts that spell a reference, and returns what they spell. */
  lemma ParseIs(valid: string -> bool, s: string, r: Reference)
    ensures Parse(valid, s) == Ok(r) <==> exists t :: Spells(valid, s, r, t)
  {
    if Parse(valid, s) == Ok(r) {
      SchemeWas(s);
      var rest := SplitScheme(s).value.1;
      OciText(rest);
      var t := RestWas(valid, Classify(rest) == Registry, rest);
      BeginsWithHostIff(rest);
      if r.host != "" { FirstOf(r.host, r.path + t); }
      assert rest == HostPart(r.host) + (r.path + t);
      assert Spells(valid, s, r, t);
    }
    if t :| Spells(valid, s, r, t) {
      OciText(HostPart(r.host) + (r.path + t));
      SpelledIsParsed(valid, r, t, HostPart(r.host) + (r.path + t));
    }
  }

  lemma SpelledIsParsed(valid: string -> bool, r: Reference, t: string, rest: string)
    requires r.scheme == OCI && Repository(r.path) && Tail(valid, t, r.ref)
    requires rest == HostPart(r.host) + (r.path + t) && !DoubleSlash(rest)
    requires if r.host != "" then HostName(r.host) else !BeginsWithHost(rest)
    ensures Parse(valid, OCI + MARK + rest) == Ok(r)
  {
    ParseSplits(valid, rest);
    NameReads(valid, r.host, r.path, t, r.ref);
    BeginsWithHostIff(rest);
    if r.host != "" {
      assert rest == r.host + "/" + (r.path + t);
      ReadsRemote(valid, r.host, r.path + t, false);
    } else {
      assert rest == r.path + t;
    }
  }

  /** Something stands before the first "://". */
  ghost predicate HasScheme(s: string) {
    exists i: nat :: 0 < i && MarkAt(s, i) && forall j | 0 <= j < i :: !MarkAt(s, j)
  }

  predicate MarkAt(s: string, i: nat) {
    i + 2 < |s| && s[i] == ':' && s[i + 1] == '/' && s[i + 2] == '/'
  }

  /** And what Parse says of any other text. That a host is missing it never says: a text that begins with a
      slash is a local layout's. */
  lemma ParseRefusesAs(valid: string -> bool, s: string)
    requires Parse(valid, s).Err?
    ensures Parse(valid, s).error == if s != "" && !HasScheme(s) then SchemeRequired
      else if s != "" && !("oci://" <= s) then SchemeUnsupported else Invalid
  {
    SchemeIff(s);
    if SplitScheme(s).Ok? && SplitScheme(s).value.0 == OCI {
      SchemeWas(s);
      OciText(SplitScheme(s).value.1);
      ReadRefuses(valid, SplitScheme(s).value.1);
    }
  }

  lemma ReadRefuses(valid: string -> bool, rest: string)
    ensures var got := Read(valid, Classify(rest) == Registry, rest, false); got.Err? ==> got.error == Invalid
  {
    if '/' in rest && First(rest) == "" { assert rest[0] == '/'; }
  }

  lemma SchemeIff(s: string)
    ensures s != "" ==> (SplitScheme(s) == Err(SchemeRequired) <==> !HasScheme(s))
    ensures "oci://" <= s ==> SplitScheme(s) == Ok((OCI, s[6..]))
    ensures SplitScheme(s).Ok? && SplitScheme(s).value.0 == OCI ==> "oci://" <= s
  {
    MarkIsFirst(s);
    if "oci://" <= s {
      assert s == "oci://" + s[6..];
      OciText(s[6..]);
      SchemeOf(s[6..]);
    }
    if SplitScheme(s).Ok? && SplitScheme(s).value.0 == OCI {
      SchemeWas(s);
      OciText(SplitScheme(s).value.1);
    }
  }

  lemma {:induction false} MarkIsFirst(s: string)
    ensures IndexMark(s) < |s| ==> MarkAt(s, IndexMark(s))
    ensures forall j | 0 <= j < IndexMark(s) :: !MarkAt(s, j)
  {
    assert MarkAt(s, 0) ==> s[..3] == MARK;
    if s != "" && !(MARK <= s) {
      MarkIsFirst(s[1..]);
      forall j | 0 < j < IndexMark(s) ensures !MarkAt(s, j) { assert MarkAt(s, j) ==> MarkAt(s[1..], j - 1); }
    }
  }

  // ---------- a reference to a file ----------

  /** s spells the file p of r: a registry's host, the repository, a tag without a colon or a digest, and after one
      more colon a path that cleans to p. */
  ghost predicate SpellsFile(valid: string -> bool, s: string, r: Reference, p: string, digest: bool, file: string) {
    && r.scheme == "oci" && HostName(r.host) && Repository(r.path)
    && (if digest then valid(r.ref) else ':' !in r.ref)
    && file != "" && p == Clean(TrimPrefix(file, "/")) && Inside(p)
    && var rest := r.host + "/" + (r.path + ((if digest then "@" else ":") + r.ref) + ":" + file);
      s == "oci://" + rest && !DoubleSlash(rest)
  }

  /** ParseFile accepts exactly those. */
  lemma ParseFileIs(valid: string -> bool, s: string, r: Reference, p: string)
    requires Grammar(valid)
    ensures ParseFile(valid, s) == Ok((r, p)) <==> exists digest, file :: SpellsFile(valid, s, r, p, digest, file)
  {
    if ParseFile(valid, s) == Ok((r, p)) {
      FileWasSpelled(valid, s, r, p);
    }
    if digest, file :| SpellsFile(valid, s, r, p, digest, file) {
      OciText(r.host + "/" + (r.path + ((if digest then "@" else ":") + r.ref) + ":" + file));
      SpelledFileIsParsed(valid, r, p, digest, file);
    }
  }

  lemma FileWasSpelled(valid: string -> bool, s: string, r: Reference, p: string)
    requires Grammar(valid) && ParseFile(valid, s) == Ok((r, p))
    ensures exists digest, file :: SpellsFile(valid, s, r, p, digest, file)
  {
    var host, name := FileSplitOff(valid, s);
    var file := ReadName(valid, host, name, true).value.1;
    FileKept(file);
    NameWasSpelled(valid, s, host, name, r, p, file);
  }

  lemma FileSplitOff(valid: string -> bool, s: string) returns (host: string, name: string)
    requires ParseFile(valid, s).Ok?
    ensures s == "oci://" + (host + "/" + name) && HostName(host) && !DoubleSlash(host + "/" + name)
    ensures WithFile(ReadName(valid, host, name, true)) == ParseFile(valid, s)
    ensures ReadName(valid, host, name, true).Ok? && ReadName(valid, host, name, true).value.1 != ""
  {
    SchemeWas(s);
    var rest := SplitScheme(s).value.1;
    FileRestWas(valid, rest);
    host, name := First(rest), rest[|First(rest)| + 1..];
    HostDecides(host, name);
    HostIsRegistry(host);
    OciText(rest);
  }

  lemma NameWasSpelled(valid: string -> bool, s: string, host: string, name: string, r: Reference, p: string, file: string)
    requires Grammar(valid) && ReadName(valid, host, name, true) == Ok((r, file)) && HostName(host)
    requires file != "" && p == Clean(TrimPrefix(file, "/")) && Inside(p)
    requires s == "oci://" + (host + "/" + name) && !DoubleSlash(host + "/" + name)
    ensures exists digest, file :: SpellsFile(valid, s, r, p, digest, file)
  {
    var digest := FileNameWas(valid, host, name, r, file);
    assert SpellsFile(valid, s, r, p, digest, file);
  }

  lemma FileNameWas(valid: string -> bool, host: string, name: string, r: Reference, file: string) returns (digest: bool)
    requires Grammar(valid) && ReadName(valid, host, name, true) == Ok((r, file)) && file != ""
    ensures r.scheme == "oci" && r.host == host && Repository(r.path) && if digest then valid(r.ref) else ':' !in r.ref
    ensures name == r.path + ((if digest then "@" else ":") + r.ref) + ":" + file
  {
    HostOf(valid, host, name);
    SchemeRead(valid, host, name);
    digest := NameParts(valid, host, name);
  }

  lemma SpelledFileIsParsed(valid: string -> bool, r: Reference, p: string, digest: bool, file: string)
    requires Grammar(valid) && r.scheme == OCI && HostName(r.host) && Repository(r.path)
    requires if digest then valid(r.ref) else ':' !in r.ref
    requires file != "" && p == Clean(TrimPrefix(file, "/")) && Inside(p)
    requires !DoubleSlash(r.host + "/" + (r.path + ((if digest then "@" else ":") + r.ref) + ":" + file))
    ensures ParseFile(valid, OCI + MARK + (r.host + "/" + (r.path + ((if digest then "@" else ":") + r.ref) + ":" + file)))
      == Ok((r, p))
  {
    var name := r.path + ((if digest then "@" else ":") + r.ref) + ":" + file;
    HostIsRegistry(r.host);
    ParseFileSplits(valid, r.host, name);
    NameHasFile(valid, r, digest, file);
    CleanIsInside(p);
  }

  lemma NameHasFile(valid: string -> bool, r: Reference, digest: bool, file: string)
    requires Grammar(valid) && r.scheme == OCI && Repository(r.path) && if digest then valid(r.ref) else ':' !in r.ref
    ensures ReadName(valid, r.host, r.path + ((if digest then "@" else ":") + r.ref) + ":" + file, true) == Ok((r, file))
  {
    var sep := if digest then "@" else ":";
    Regroup(r.path, sep, r.ref, file);
    Assoc(r.path, sep, r.ref + ":" + file);
    var t := sep + (r.ref + ":" + file);
    SepAfter(r.path, t);
    assert (r.path + t)[|r.path| + 1..] == r.ref + ":" + file;
    CutsAt(valid, r.ref, file);
  }

  // ---------- an item of a pack ----------

  /** s spells the item r: a repository of no registry, and a tag or a digest or nothing. */
  ghost predicate SpellsItem(valid: string -> bool, s: string, r: Reference, t: string) {
    && r.scheme == "oci" && r.host == "" && Repository(r.path) && Tail(valid, t, r.ref)
    && !StartsWith(r.path, '/') && !StartsWith(r.path, '.') && !StartsWith(r.path, '~')
    && !DoubleSlash(r.path + t) && !BeginsWithHost(r.path + t)
    && ('/' in t ==> '/' in r.path) && OneColon(r.path + t)
    && s == "oci://" + (r.path + t)
  }

  /** A second colon before any digest would make the first one a layout's path. */
  ghost predicate OneColon(rest: string) {
    forall i, j | 0 <= i < j < |rest| && rest[i] == ':' && rest[j] == ':' :: exists k :: 0 <= k < j && rest[k] == '@'
  }

  lemma OneColonIff(rest: string)
    ensures OneColon(rest) <==> !TwoColons(rest[..IndexOf(rest, '@')])
  {
    var at := IndexOf(rest, '@');
    var head := rest[..at];
    var first := IndexOf(head, ':');
    if TwoColons(head) {
      var j :| 0 <= j < |head[first + 1..]| && head[first + 1..][j] == ':';
      assert rest[first] == ':' && rest[first + 1 + j] == ':' && forall k | 0 <= k < first + 1 + j :: rest[k] != '@';
    }
    if !OneColon(rest) {
      var i, j :| 0 <= i < j < |rest| && rest[i] == ':' && rest[j] == ':' && !exists k :: 0 <= k < j && rest[k] == '@';
      assert at > j by { assert at != j; }
      assert head[i] == ':' && head[j] == ':' && first <= i;
      assert head[first + 1..][j - first - 1] == ':';
    }
  }

  /** ParseItem accepts exactly the texts that spell an item. */
  lemma ParseItemIs(valid: string -> bool, s: string, r: Reference)
    requires Grammar(valid)
    ensures ParseItem(valid, s) == Ok(r) <==> exists t :: SpellsItem(valid, s, r, t)
  {
    if ParseItem(valid, s) == Ok(r) {
      var t := ItemWasSpelled(valid, s, r);
    }
    if t :| SpellsItem(valid, s, r, t) {
      OciText(r.path + t);
      SpelledItemIsParsed(valid, r, t);
    }
  }

  lemma ItemWasSpelled(valid: string -> bool, s: string, r: Reference) returns (t: string)
    requires Grammar(valid) && ParseItem(valid, s) == Ok(r)
    ensures SpellsItem(valid, s, r, t)
  {
    var rest := TrimPrefix(s, OCI + MARK);
    assert s == OCI + MARK + rest;
    OciText(rest);
    t := NameWas(valid, "", rest);
    ItemFits(valid, r.path, t, r.ref);
  }

  lemma SpelledItemIsParsed(valid: string -> bool, r: Reference, t: string)
    requires Grammar(valid) && SpellsItem(valid, "oci://" + (r.path + t), r, t)
    ensures ParseItem(valid, OCI + MARK + (r.path + t)) == Ok(r)
  {
    TrimmedPrefix(OCI + MARK, r.path + t);
    ItemFits(valid, r.path, t, r.ref);
    NameReads(valid, "", r.path, t, r.ref);
  }

  /** Which repositories and tails ParseItem goes on with. */
  lemma ItemFits(valid: string -> bool, path: string, t: string, ref: string)
    requires Grammar(valid) && Repository(path) && Tail(valid, t, ref)
    ensures var rest := path + t;
      (('/' in rest ==> Classify(rest) == Bare) && ('/' !in rest ==> Classify(rest) != Layout) && !TwoColons(rest[..IndexOf(rest, '@')]))
      <==> !StartsWith(path, '/') && !StartsWith(path, '.') && !StartsWith(path, '~') && !BeginsWithHost(rest) &&
           ('/' in t ==> '/' in path) && OneColon(rest)
  {
    var rest := path + t;
    OneColonIff(rest);
    BeginsWithHostIff(rest);
    assert rest[0] == path[0];
    if '/' in path {
      FirstInside(path, t);
      forall c | c in First(rest) ensures c != ':' { assert c in path; }
    } else if '/' in t {
      SlashInTail(valid, path, t, ref);
    } else {
      assert '/' !in rest;
    }
  }

  lemma NoSlashInDigest(valid: string -> bool, d: string)
    requires Grammar(valid) && valid(d)
    ensures '/' !in "@" + d
  {
  }

  /** A slash in the tag, with none before it: the first segment has a colon in it. */
  lemma SlashInTail(valid: string -> bool, path: string, t: string, ref: string)
    requires Grammar(valid) && Repository(path) && Tail(valid, t, ref) && '/' !in path && '/' in t
    ensures '/' in path + t && ':' in First(path + t) && Classify(path + t) != Bare
  {
    var rest := path + t;
    var k :| 0 <= k < |t| && t[k] == '/';
    assert rest[|path| + k] == '/';
    assert t[0] == ':' by { if t == "@" + ref && valid(ref) { NoSlashInDigest(valid, ref); } }
    assert rest[|path|] == ':' && forall j | 0 <= j <= |path| :: rest[j] != '/' by {
      forall j | 0 <= j < |path| ensures rest[j] != '/' { assert path[j] in path; }
    }
    assert First(rest)[|path|] == ':';
  }
}
