/**
 * pkg/registry/reference: how references are read and printed. Text is a sequence of
 * bytes. Whether a digest is well-formed is a library's business: it is the parameter
 * valid, of which only Grammar is used.
 */
module References {
  import opened Wrappers
  import opened Strings

  datatype Error = Invalid | SchemeRequired | SchemeUnsupported | HostnameRequired | FileRequired
                 | FileOfLayout | OutsideArtifact | ItemOfLayout | ItemOfRegistry

  datatype Reference = Reference(scheme: string, host: string, path: string, ref: string)

  datatype Form = Bare | Layout | Registry

  const OCI := "oci"
  const MARK := "://"

  /** A digest the library accepts is an algorithm, one colon and a hash: no slash, no '@',
      no other colon. Its algorithms (sha256, sha384, sha512) and their lengths are what
      IsDigest looks for. */
  ghost predicate Grammar(valid: string -> bool) {
    forall d {:trigger valid(d)} | valid(d) :: IsDigest(d) && '/' !in d && '@' !in d && ':' !in d[..6] && ':' !in d[7..]
  }

  predicate IsDigest(s: string) {
    |s| > 64 && s[..3] == "sha" && s[6] == ':'
  }

  // ---------- printing ----------

  function RepoReference(r: Reference): string {
    r.path + (if IsDigest(r.ref) then "@" else ":") + r.ref
  }

  function String(r: Reference): string {
    r.scheme + MARK + (if r.host == "" then "" else r.host + "/") + RepoReference(r)
  }

  // ---------- reading ----------

  /** Where the first "://" is; the length when there is none. */
  function IndexMark(s: string): (i: nat)
    ensures i <= |s|
    ensures i < |s| ==> i + 3 <= |s| && s[i..i + 3] == MARK
  {
    if s == "" || MARK <= s then 0
    else
      var i := 1 + IndexMark(s[1..]);
      TailSlice(s, i, 3);
      i
  }

  lemma TailSlice(s: string, i: nat, n: nat)
    requires 0 < i
    ensures i + n <= |s| ==> s[1..][i - 1..i - 1 + n] == s[i..i + n]
  {
  }

  function SplitScheme(s: string): Result<(string, string), Error> {
    if s == "" then Err(Invalid)
    else
      var i := IndexMark(s);
      if i == |s| || i == 0 then Err(SchemeRequired)
      else if s[..i] !in {"oci", "dir", "file", "s3", "s3+http", "http", "https"} then Err(SchemeUnsupported)
      else Ok((s[..i], s[i + 3..]))
  }

  predicate IsPort(s: string) {
    s != "" && forall c | c in s :: '0' <= c <= '9'
  }

  method ReadPort(s: string) returns (port: bool)
    ensures port <==> IsPort(s)
  {
    if |s| == 0 { return false; }
    for i := 0 to |s|
      invariant forall j | 0 <= j < i :: '0' <= s[j] <= '9'
    {
      assert s[i] in s;
      if s[i] < '0' || s[i] > '9' { return false; }
    }
    return true;
  }

  function First(rest: string): string {
    rest[..IndexOf(rest, '/')]
  }

  function Classify(rest: string): Form {
    if StartsWith(rest, '/') || StartsWith(rest, '.') || StartsWith(rest, '~') then Layout
    else
      var first := First(rest);
      var colon := IndexOf(first, ':');
      if colon < |first| then
        if IsPort(first[colon + 1..]) then Registry
        else if '/' in rest then Layout
        else Bare
      else if '.' in first || first == "localhost" then Registry
      else Bare
  }

  /** Cuts the file off what follows the first '@' or ':'. A digest's own colon is not the file's. */
  function CutFile(digest: bool, tail: string): (r: (string, string)) {
    var colon := IndexOf(tail, ':');
    var skip := if digest && colon < |tail| then colon + 1 else 0;
    var cut := skip + IndexOf(tail[skip..], ':');
    if cut == |tail| then (tail, "") else (tail[..cut], tail[cut + 1..])
  }

  /** What is left once the host is cut off: <path>[:<tag>|@<digest>][:<file>]. */
  function ReadName(valid: string -> bool, host: string, name: string, withFile: bool): Result<(Reference, string), Error> {
    var i := IndexSep(name);
    if i == |name| then
      if name == "" || EndsWith(name, '/') then Err(Invalid)
      else Ok((Reference(OCI, host, name, "latest"), ""))
    else
      var tail := name[i + 1..];
      Named(valid, host, name[..i], name[i] == '@', if withFile then CutFile(name[i] == '@', tail) else (tail, ""))
  }

  function Named(valid: string -> bool, host: string, path: string, digest: bool, cut: (string, string))
    : Result<(Reference, string), Error>
  {
    if digest && !valid(cut.0) then Err(Invalid)
    else if path == "" || EndsWith(path, '/') then Err(Invalid)
    else Ok((Reference(OCI, host, path, cut.0), cut.1))
  }

  function Read(valid: string -> bool, remote: bool, rest: string, withFile: bool): Result<(Reference, string), Error> {
    if DoubleSlash(rest) then Err(Invalid)
    else if !remote || '/' !in rest then ReadName(valid, "", rest, withFile)
    else
      var host := First(rest);
      if host == "" then Err(HostnameRequired)
      else ReadName(valid, host, rest[|host| + 1..], withFile)
  }

  /** parse as it is written: a reference filled field by field. */
  method Fill(valid: string -> bool, remote: bool, rest: string, withFile: bool)
    returns (result: Result<(Reference, string), Error>)
    ensures result == Read(valid, remote, rest, withFile)
  {
    var ref := Reference("", "", "", "");
    var name := rest;
    if DoubleSlash(name) { return Err(Invalid); }
    if remote {
      var idx := IndexOf(name, '/');
      if idx == |name| {
        ref := ref.(path := name);
      } else {
        ref := ref.(host := name[..idx]);
        if |ref.host| == 0 { return Err(HostnameRequired); }
        assert rest[idx] == '/';
        name := TrimPrefix(name[idx + 1..], "/");
      }
    }
    result := FillName(valid, ref.(scheme := OCI), name, withFile);
  }

  method FillName(valid: string -> bool, named: Reference, name: string, withFile: bool)
    returns (result: Result<(Reference, string), Error>)
    requires named.scheme == OCI
    ensures result == ReadName(valid, named.host, name, withFile)
  {
    var ref, file := named, "";
    var idx := IndexSep(name);
    if idx == |name| {
      ref := ref.(path := name, ref := "latest");
    } else {
      var tail := name[idx + 1..];
      ref := ref.(path := name[..idx], ref := tail);
      if withFile {
        var rest;
        rest, file := FillFile(name[idx] == '@', tail);
        ref := ref.(ref := rest);
      }
      if name[idx] == '@' && !valid(ref.ref) { return Err(Invalid); }
    }
    if |ref.path| == 0 || EndsWith(ref.path, '/') { return Err(Invalid); }
    return Ok((ref, file));
  }

  method FillFile(digest: bool, tail: string) returns (ref: string, file: string)
    ensures (ref, file) == CutFile(digest, tail)
  {
    var skip := 0;
    if digest {
      var colon := IndexOf(tail, ':');
      if colon < |tail| { skip := colon + 1; }
    }
    ref, file := tail, "";
    var next := IndexOf(tail[skip..], ':');
    if next < |tail[skip..]| {
      ref, file := tail[..skip + next], tail[skip + next + 1..];
    }
  }

  function Parse(valid: string -> bool, s: string): Result<Reference, Error> {
    match SplitScheme(s)
    case Err(e) => Err(e)
    case Ok((scheme, rest)) =>
      if scheme != OCI then Err(SchemeUnsupported)
      else
        match Read(valid, Classify(rest) == Registry, rest, false)
        case Err(e) => Err(e)
        case Ok((r, _)) => Ok(r)
  }

  /** What ParseFile makes of the text after the name. */
  function FileOf(file: string): Result<string, Error> {
    if file == "" then Err(FileRequired)
    else
      var clean := Clean(TrimPrefix(file, "/"));
      if clean == "." || clean == ".." || "../" <= clean then Err(OutsideArtifact) else Ok(clean)
  }

  function ParseFile(valid: string -> bool, s: string): Result<(Reference, string), Error> {
    match SplitScheme(s)
    case Err(e) => Err(e)
    case Ok((scheme, rest)) =>
      if scheme != OCI then Err(SchemeUnsupported)
      else if Classify(rest) != Registry then Err(FileOfLayout)
      else
        match Read(valid, true, rest, true)
        case Err(e) => Err(e)
        case Ok((r, file)) =>
          if r.host == "" then Err(Invalid)
          else
            match FileOf(file)
            case Err(e) => Err(e)
            case Ok(path) => Ok((r, path))
  }

  predicate TwoColons(s: string) {
    var i := IndexOf(s, ':');
    i < |s| && ':' in s[i + 1..]
  }

  function ParseItem(valid: string -> bool, s: string): Result<Reference, Error> {
    if !(OCI + MARK <= s) || |s| == |OCI + MARK| then Err(Invalid) else ReadItem(valid, TrimPrefix(s, OCI + MARK))
  }

  function ReadItem(valid: string -> bool, rest: string): Result<Reference, Error> {
    var form := if '/' !in rest && Classify(rest) == Registry then Bare else Classify(rest);
    if form == Layout then Err(ItemOfLayout)
    else if form == Registry then Err(ItemOfRegistry)
    else if TwoColons(rest[..IndexOf(rest, '@')]) then Err(ItemOfLayout)
    else
      match Read(valid, false, rest, false)
      case Err(e) => Err(e)
      case Ok((r, _)) => Ok(r)
  }

  // ---------- the scheme ----------

  lemma SchemeOf(rest: string)
    ensures SplitScheme(OCI + MARK + rest) == Ok((OCI, rest))
  {
    var s := OCI + MARK + rest;
    Assoc(OCI, MARK, rest);
    assert s[3..] == MARK + rest && s[..3] == OCI && s[6..] == rest;
    MarkFirst(s, 3);
  }

  lemma {:induction false} MarkFirst(s: string, i: nat)
    requires i <= |s| && MARK <= s[i..] && forall j | 0 <= j < i :: s[j] != ':'
    ensures IndexMark(s) == i
    decreases i
  {
    if i == 0 {
      assert s[0..] == s;
    } else {
      assert s[1..][i - 1..] == s[i..];
      MarkFirst(s[1..], i - 1);
      assert MARK[0] == ':' && s[0] != MARK[0];
    }
  }

  lemma SchemeWas(s: string)
    ensures SplitScheme(s).Ok? && SplitScheme(s).value.0 == OCI ==> s == OCI + MARK + SplitScheme(s).value.1
  {
  }

  // ---------- the shape of what is read ----------

  predicate Repository(p: string) {
    p != "" && !EndsWith(p, '/') && '@' !in p && ':' !in p
  }

  function HostPart(host: string): string {
    if host == "" then "" else host + "/"
  }

  /** What may follow the repository: nothing, ":" and a tag, or "@" and a digest. */
  predicate Tail(valid: string -> bool, t: string, ref: string) {
    || (t == "" && ref == "latest")
    || t == ":" + ref
    || (t == "@" + ref && valid(ref))
  }

  lemma SepAfter(path: string, t: string)
    requires '@' !in path && ':' !in path
    requires t == "" || t[0] == '@' || t[0] == ':'
    ensures IndexSep(path + t) == |path|
  {
    forall j | 0 <= j < |path| ensures (path + t)[j] != '@' && (path + t)[j] != ':' {
      assert path[j] in path;
    }
    IndexSepIs(path + t, |path|);
  }

  /** Reading a name the other way round: a repository and what follows it. */
  lemma NameReads(valid: string -> bool, host: string, path: string, t: string, ref: string)
    requires Repository(path) && Tail(valid, t, ref)
    ensures ReadName(valid, host, path + t, false) == Ok((Reference(OCI, host, path, ref), ""))
  {
    SepAfter(path, t);
    var name := path + t;
    assert name[..|path|] == path;
    if t == "" {
      assert name == path;
    } else {
      assert name[|path| + 1..] == t[1..] == ref;
    }
  }

  lemma NameInvalid(valid: string -> bool, host: string, path: string, ref: string)
    requires Repository(path) && !valid(ref)
    ensures ReadName(valid, host, path + ("@" + ref), false) == Err(Invalid)
  {
    SepAfter(path, "@" + ref);
    var name := path + ("@" + ref);
    assert name[|path| + 1..] == ref;
  }

  lemma NameWas(valid: string -> bool, host: string, name: string) returns (t: string)
    requires ReadName(valid, host, name, false).Ok?
    ensures var (r, file) := ReadName(valid, host, name, false).value;
      r.scheme == OCI && r.host == host && Repository(r.path) && Tail(valid, t, r.ref) && name == r.path + t
  {
    var i := IndexSep(name);
    t := name[i..];
    assert name == name[..i] + name[i..];
    assert i < |name| ==> name[i..] == [name[i]] + name[i + 1..];
    assert forall c | c in name[..i] :: c != '@' && c != ':';
  }

  lemma FirstOf(host: string, more: string)
    requires '/' !in host
    ensures First(host + "/" + more) == host && '/' in host + "/" + more
  {
    var s := host + "/" + more;
    assert s[|host|] == '/';
    forall j | 0 <= j < |host| ensures s[j] != '/' { assert host[j] in host; }
    IndexOfIs(s, '/', |host|);
    assert s[..|host|] == host;
  }

  lemma RestWas(valid: string -> bool, remote: bool, rest: string) returns (t: string)
    requires Read(valid, remote, rest, false).Ok?
    ensures var (r, file) := Read(valid, remote, rest, false).value;
      && r.scheme == OCI && Repository(r.path) && Tail(valid, t, r.ref) && !DoubleSlash(rest)
      && rest == HostPart(r.host) + (r.path + t)
      && (if r.host == "" then !remote || '/' !in rest else remote && '/' in rest && '/' !in r.host)
  {
    if !remote || '/' !in rest {
      t := NameWas(valid, "", rest);
    } else {
      var host := First(rest);
      t := NameWas(valid, host, rest[|host| + 1..]);
      HostSplitOff(rest);
    }
  }

  lemma HostSplitOff(rest: string)
    requires '/' in rest
    ensures |First(rest)| < |rest| && rest == First(rest) + "/" + rest[|First(rest)| + 1..] && '/' !in First(rest)
  {
  }

  /** What names a registry, whatever follows its slash: a name with a port, or one with a dot in it, or localhost.
      A dot or a tilde in front is a path's. */
  predicate HostName(h: string) {
    && h != "" && '/' !in h && h[0] != '.' && h[0] != '~'
    && if ':' in h then exists i | 0 <= i < |h| - 1 :: HostAndPort(h, i) else '.' in h || h == "localhost"
  }

  predicate HostAndPort(h: string, i: nat)
    requires i < |h|
  {
    h[i] == ':' && (forall j | 0 <= j < i :: h[j] != ':') && forall j | i < j < |h| :: '0' <= h[j] <= '9'
  }

  lemma HostIsRegistry(h: string)
    requires h != "" && '/' !in h
    ensures Classify(h + "/") == Registry <==> HostName(h)
  {
    FirstOf(h, "");
    assert h + "/" + "" == h + "/" && (h + "/")[0] == h[0];
    var colon := IndexOf(h, ':');
    if ':' in h {
      assert colon < |h|;
      PortAfter(h, colon);
    }
  }

  lemma PortAfter(h: string, colon: nat)
    requires colon < |h| && h[colon] == ':' && forall j | 0 <= j < colon :: h[j] != ':'
    ensures IsPort(h[colon + 1..]) <==> exists i | 0 <= i < |h| - 1 :: HostAndPort(h, i)
  {
    var port := h[colon + 1..];
    if IsPort(port) {
      forall j | colon < j < |h| ensures '0' <= h[j] <= '9' { assert h[j] == port[j - colon - 1] && port[j - colon - 1] in port; }
      assert HostAndPort(h, colon);
    }
    if i :| 0 <= i < |h| - 1 && HostAndPort(h, i) {
      assert i == colon;
      forall c | c in port ensures '0' <= c <= '9' {
        var j :| 0 <= j < |port| && port[j] == c;
        assert h[colon + 1 + j] == c;
      }
    }
  }

  // ---------- Parse undoes String ----------

  /** Only the first segment, and whether another follows, tell the forms apart. */
  lemma SameForm(a: string, b: string)
    requires First(a) == First(b) != "" && '/' in a && '/' in b
    ensures Classify(a) == Classify(b)
  {
    assert a[0] == First(a)[0] && b[0] == First(b)[0];
  }

  lemma Spelled(r: Reference)
    requires r.scheme == OCI
    ensures String(r) == OCI + MARK + (HostPart(r.host) + (r.path + PrintedTail(r)))
  {
    assert RepoReference(r) == r.path + PrintedTail(r);
  }

  lemma SpelledFile(r: Reference, p: string)
    requires r.scheme == OCI && r.host != ""
    ensures String(r) + ":" + p == OCI + MARK + (r.host + "/" + (r.path + PrintedTail(r) + ":" + p))
  {
    var host, name := r.host + "/", r.path + PrintedTail(r);
    Spelled(r);
    Assoc(OCI + MARK, host + name, ":" + p);
    Assoc(host, name, ":" + p);
    Assoc(name, ":", p);
    Assoc(String(r), ":", p);
  }

  function PrintedTail(r: Reference): string {
    (if IsDigest(r.ref) then "@" else ":") + r.ref
  }

  /** Printing brings in no "//". */
  lemma NoDoubleSlash(valid: string -> bool, head: string, t: string, r: Reference)
    requires Repository(r.path) && Tail(valid, t, r.ref) && !DoubleSlash(head + (r.path + t))
    ensures !DoubleSlash(head + (r.path + PrintedTail(r)))
  {
    DoubleSlashConcat(head, r.path + t);
    DoubleSlashConcat(head, r.path + PrintedTail(r));
    DoubleSlashConcat(r.path, t);
    DoubleSlashConcat(r.path, PrintedTail(r));
    assert !DoubleSlash("latest") && !DoubleSlash(":") && !DoubleSlash("@");
    DoubleSlashConcat(":", r.ref);
    DoubleSlashConcat("@", r.ref);
  }

  lemma ParseSplits(valid: string -> bool, rest: string)
    ensures Parse(valid, OCI + MARK + rest) ==
      match Read(valid, Classify(rest) == Registry, rest, false) { case Err(e) => Err(e) case Ok((r, _)) => Ok(r) }
  {
    SchemeOf(rest);
  }

  lemma RegistryUndone(valid: string -> bool, rest: string, t: string, r: Reference)
    requires r.scheme == OCI && r.host != "" && '/' !in r.host && Repository(r.path) && Tail(valid, t, r.ref)
    requires rest == HostPart(r.host) + (r.path + t) && Classify(rest) == Registry && !DoubleSlash(rest)
    ensures Parse(valid, String(r)) == if IsDigest(r.ref) && !valid(r.ref) then Err(Invalid) else Ok(r)
  {
    var tail := r.path + PrintedTail(r);
    var again := HostPart(r.host) + tail;
    FirstOf(r.host, r.path + t);
    FirstOf(r.host, tail);
    SameForm(rest, again);
    NoDoubleSlash(valid, HostPart(r.host), t, r);
    Spelled(r);
    ParseSplits(valid, again);
    assert again[|r.host| + 1..] == tail;
    if IsDigest(r.ref) && !valid(r.ref) {
      NameInvalid(valid, r.host, r.path, r.ref);
    } else {
      NameReads(valid, r.host, r.path, PrintedTail(r), r.ref);
    }
  }

  /** Without a host: what is printed is still not a registry's, or has no slash for a host to end at. */
  lemma StaysLocal(valid: string -> bool, rest: string, t: string, r: Reference)
    requires Grammar(valid) && Repository(r.path) && Tail(valid, t, r.ref) && rest == r.path + t
    requires Classify(rest) != Registry || '/' !in rest
    requires IsDigest(r.ref) ==> valid(r.ref)
    ensures var again := r.path + PrintedTail(r); Classify(again) != Registry || '/' !in again
  {
    var again := r.path + PrintedTail(r);
    if '/' in r.path {
      assert r.path[0] != '/' || Classify(again) == Layout;
      FirstInside(r.path, t);
      FirstInside(r.path, PrintedTail(r));
      if First(r.path) != "" { SameForm(rest, again); }
    } else if '/' in r.ref {
      assert again == rest;
    } else {
      assert '/' !in again;
    }
  }

  lemma FirstInside(path: string, t: string)
    requires '/' in path
    ensures First(path + t) == First(path) && '/' in path + t
  {
    var i := IndexOf(path, '/');
    assert forall j | 0 <= j <= i :: (path + t)[j] == path[j];
    IndexOfIs(path + t, '/', i);
    assert (path + t)[..i] == path[..i];
  }

  /** A wrong digest is refused, or else taken for part of a host. */
  lemma WrongDigest(valid: string -> bool, remote: bool, r: Reference)
    requires r.host == "" && Repository(r.path) && IsDigest(r.ref) && !valid(r.ref)
    ensures var got := Read(valid, remote, r.path + PrintedTail(r), false); got.Ok? ==> got.value.0.host != ""
  {
    NameInvalid(valid, "", r.path, r.ref);
  }

  lemma LocalUndone(valid: string -> bool, rest: string, t: string, r: Reference)
    requires Grammar(valid) && r.scheme == OCI && r.host == "" && Repository(r.path) && Tail(valid, t, r.ref)
    requires rest == r.path + t && !DoubleSlash(rest)
    requires Classify(rest) != Registry || '/' !in rest
    ensures Parse(valid, String(r)) == Ok(r) <==> (IsDigest(r.ref) ==> valid(r.ref))
  {
    var again := r.path + PrintedTail(r);
    Spelled(r);
    assert String(r) == OCI + MARK + again by { assert HostPart(r.host) + again == again; }
    ParseSplits(valid, again);
    if IsDigest(r.ref) && !valid(r.ref) {
      WrongDigest(valid, Classify(again) == Registry, r);
    } else {
      assert "" + again == again && "" + (r.path + t) == rest;
      NoDoubleSlash(valid, "", t, r);
      StaysLocal(valid, rest, t, r);
      NameReads(valid, "", r.path, PrintedTail(r), r.ref);
    }
  }

  /** Parse undoes String: whatever text r was read from, in either form and with the tag
      given or defaulted, printing r and reading it again gives r, exactly when a Ref that
      looks like a digest is one. */
  lemma ParseUndoesString(valid: string -> bool, s: string)
    requires Grammar(valid) && Parse(valid, s).Ok?
    ensures var r := Parse(valid, s).value; Parse(valid, String(r)) == Ok(r) <==> (IsDigest(r.ref) ==> valid(r.ref))
  {
    SchemeWas(s);
    var rest := SplitScheme(s).value.1;
    var t := RestWas(valid, Classify(rest) == Registry, rest);
    var r := Parse(valid, s).value;
    if r.host == "" {
      assert rest == r.path + t;
      LocalUndone(valid, rest, t, r);
    } else {
      RegistryUndone(valid, rest, t, r);
    }
  }

  /** It does fail: a tag that looks like a digest without being one is read after ":", printed
      after "@", and then refused. */
  lemma OwnPrintRefused(valid: string -> bool, ref: string)
    requires Grammar(valid) && IsDigest(ref) && !valid(ref) && '/' !in ref
    ensures var r := Reference(OCI, "", "repo", ref);
      Parse(valid, OCI + MARK + "repo:" + ref) == Ok(r) && Parse(valid, String(r)) == Err(Invalid)
  {
    var r := Reference(OCI, "", "repo", ref);
    assert Repository("repo") && '/' !in "repo";
    var rest := "repo" + (":" + ref);
    assert OCI + MARK + rest == OCI + MARK + "repo:" + ref;
    ParseSplits(valid, rest);
    NameReads(valid, "", "repo", ":" + ref, ref);
    var again := "repo" + ("@" + ref);
    Spelled(r);
    assert "" + again == again;
    ParseSplits(valid, again);
    NameInvalid(valid, "", "repo", ref);
    assert '/' !in rest && '/' !in again && !DoubleSlash(rest) && !DoubleSlash(again);
  }

  // ---------- naming a file ----------

  /** A reference to a registry that prints as it reads. */
  predicate RegistryRef(valid: string -> bool, r: Reference) {
    && r.scheme == OCI && HostName(r.host)
    && Repository(r.path) && !DoubleSlash(HostPart(r.host) + (r.path + PrintedTail(r)))
    && (IsDigest(r.ref) ==> valid(r.ref))
  }

  lemma HostDecides(host: string, more: string)
    requires host != "" && '/' !in host
    ensures Classify(host + "/" + more) == Classify(host + "/")
  {
    FirstOf(host, more);
    FirstOf(host, "");
    assert host + "/" + "" == host + "/";
    SameForm(host + "/" + more, host + "/");
  }

  /** Every registry reference Parse returns is one, unless its tag only looks like a digest. */
  lemma ParsedIsRegistryRef(valid: string -> bool, s: string)
    requires Parse(valid, s).Ok? && Parse(valid, s).value.host != ""
    ensures var r := Parse(valid, s).value; RegistryRef(valid, r) <==> (IsDigest(r.ref) ==> valid(r.ref))
  {
    var rest := SplitScheme(s).value.1;
    var t := RestWas(valid, Classify(rest) == Registry, rest);
    var r := Parse(valid, s).value;
    NoDoubleSlash(valid, HostPart(r.host), t, r);
    HostDecides(r.host, r.path + t);
    HostIsRegistry(r.host);
  }

  /** Where the file is cut off. */
  lemma CutsAt(valid: string -> bool, ref: string, file: string)
    requires Grammar(valid)
    ensures IsDigest(ref) && valid(ref) ==> CutFile(true, ref + ":" + file) == (ref, file)
    ensures CutFile(false, ref + ":" + file) == (ref, file) <==> ':' !in ref
    ensures ':' in ref ==> CutFile(false, ref + ":" + file).0 != ref
  {
    var tail := ref + ":" + file;
    assert tail[|ref|] == ':' && tail[..|ref|] == ref && tail[|ref| + 1..] == file;
    assert tail[0..] == tail;
    if ':' !in ref {
      IndexOfIs(tail, ':', |ref|);
    } else {
      var k :| 0 <= k < |ref| && ref[k] == ':';
      assert tail[k] == ':' && IndexOf(tail, ':') <= k;
    }
    if IsDigest(ref) && valid(ref) {
      DigestColons(valid, ref, file);
    }
  }

  lemma DigestColons(valid: string -> bool, ref: string, file: string)
    requires Grammar(valid) && IsDigest(ref) && valid(ref)
    ensures var tail := ref + ":" + file; IndexOf(tail, ':') == 6 && IndexOf(tail[7..], ':') == |ref| - 7
  {
    var tail := ref + ":" + file;
    forall j | 0 <= j < 6 ensures tail[j] != ':' { assert ref[..6][j] == tail[j]; }
    IndexOfIs(tail, ':', 6);
    forall j | 0 <= j < |ref| - 7 ensures tail[7..][j] != ':' { assert ref[7..][j] == tail[7..][j]; }
    IndexOfIs(tail[7..], ':', |ref| - 7);
  }

  lemma FileKept(p: string)
    ensures FileOf(p) == Ok(p) <==> Inside(p)
    ensures FileOf(p).Ok? ==> Inside(FileOf(p).value)
  {
    CleanIsInside(p);
    CleanIsInside(TrimPrefix(p, "/"));
    if Inside(p) { InsideIsTidy(p); }
  }

  lemma NamedFile(valid: string -> bool, r: Reference, file: string)
    requires Grammar(valid) && RegistryRef(valid, r)
    ensures var got := ReadName(valid, r.host, r.path + PrintedTail(r) + ":" + file, true);
      got == Ok((r, file)) <==> IsDigest(r.ref) || ':' !in r.ref
    ensures var got := ReadName(valid, r.host, r.path + PrintedTail(r) + ":" + file, true);
      got.Ok? && !IsDigest(r.ref) && ':' in r.ref ==> got.value.0 != r
  {
    NamedParts(r, file);
    CutsAt(valid, r.ref, file);
  }

  lemma NamedParts(r: Reference, file: string)
    requires Repository(r.path)
    ensures var name, i := r.path + PrintedTail(r) + ":" + file, |r.path|;
      && IndexSep(name) == i && i < |name| && name[..i] == r.path && name[i + 1..] == r.ref + ":" + file
      && name[i] == if IsDigest(r.ref) then '@' else ':'
  {
    var t := PrintedTail(r) + ":" + file;
    Assoc(r.path, PrintedTail(r), ":");
    Assoc(r.path, PrintedTail(r) + ":", file);
    TailParts(r, file);
    SepAfter(r.path, t);
    assert (r.path + t)[|r.path| + 1..] == t[1..];
  }

  lemma TailParts(r: Reference, file: string)
    ensures var t := PrintedTail(r) + ":" + file;
      t != "" && t[0] == (if IsDigest(r.ref) then '@' else ':') && t[1..] == r.ref + ":" + file
  {
  }

  lemma ReadsRemote(valid: string -> bool, host: string, name: string, withFile: bool)
    requires host != "" && '/' !in host
    ensures var rest := host + "/" + name;
      Read(valid, true, rest, withFile) == if DoubleSlash(rest) then Err(Invalid) else ReadName(valid, host, name, withFile)
  {
    var rest := host + "/" + name;
    FirstOf(host, name);
    assert rest[|host| + 1..] == name;
  }

  function WithFile(got: Result<(Reference, string), Error>): Result<(Reference, string), Error> {
    match got
    case Err(e) => Err(e)
    case Ok((r, file)) => match FileOf(file) { case Err(e) => Err(e) case Ok(p) => Ok((r, p)) }
  }

  lemma ParseFileSplits(valid: string -> bool, host: string, name: string)
    requires host != "" && '/' !in host && Classify(host + "/") == Registry
    ensures ParseFile(valid, OCI + MARK + (host + "/" + name)) ==
      if DoubleSlash(host + "/" + name) then Err(Invalid) else WithFile(ReadName(valid, host, name, true))
  {
    var rest := host + "/" + name;
    SchemeOf(rest);
    HostDecides(host, name);
    ReadsRemote(valid, host, name, true);
    HostOf(valid, host, name);
  }

  lemma HostOf(valid: string -> bool, host: string, name: string)
    ensures var got := ReadName(valid, host, name, true); got.Ok? ==> got.value.0.host == host
  {
  }

  /** Naming a file and reading it back: for every registry reference and every text p it gives r
      and p exactly when r's tag holds no colon (or is a digest) and p is a clean path to
      something inside. Colons in p are p's own. */
  lemma FileUndone(valid: string -> bool, r: Reference, p: string)
    requires Grammar(valid) && RegistryRef(valid, r)
    ensures ParseFile(valid, String(r) + ":" + p) == Ok((r, p)) <==> (IsDigest(r.ref) || ':' !in r.ref) && Inside(p)
  {
    HostIsRegistry(r.host);
    var name := r.path + PrintedTail(r) + ":" + p;
    SpelledFile(r, p);
    ParseFileSplits(valid, r.host, name);
    NamedFile(valid, r, p);
    FileKept(p);
    if Inside(p) { FileBesides(r, p, r.host + "/" + name); }
  }

  lemma FileBesides(r: Reference, p: string, rest: string)
    requires rest == r.host + "/" + (r.path + PrintedTail(r) + ":" + p) && r.host != ""
    requires !DoubleSlash(HostPart(r.host) + (r.path + PrintedTail(r))) && Inside(p)
    ensures !DoubleSlash(rest)
  {
    InsideIsTidy(p);
    var a, b := HostPart(r.host) + (r.path + PrintedTail(r)), ":" + p;
    assert rest == a + b;
    DoubleSlashConcat(a, b);
    DoubleSlashConcat(":", p);
    assert !DoubleSlash(":");
  }

  lemma CutWas(digest: bool, tail: string)
    ensures var (ref, file) := CutFile(digest, tail); file != "" ==> tail == ref + ":" + file && (!digest ==> ':' !in ref)
  {
    assert tail[0..] == tail;
  }

  lemma Regroup(path: string, sep: string, ref: string, file: string)
    ensures path + sep + (ref + ":" + file) == path + (sep + ref) + ":" + file
  {
  }

  lemma PathWas(valid: string -> bool, host: string, name: string, withFile: bool)
    requires ReadName(valid, host, name, withFile).Ok?
    ensures var r := ReadName(valid, host, name, withFile).value.0;
      r.path == name[..IndexSep(name)] && Repository(r.path)
  {
    var i := IndexSep(name);
    assert name[..|name|] == name;
    assert forall c | c in name[..i] :: c != '@' && c != ':';
  }

  lemma TailWas(valid: string -> bool, host: string, name: string)
    requires ReadName(valid, host, name, true).Ok? && ReadName(valid, host, name, true).value.1 != ""
    ensures IndexSep(name) < |name|
    ensures var i, (r, file) := IndexSep(name), ReadName(valid, host, name, true).value;
      (r.ref, file) == CutFile(name[i] == '@', name[i + 1..]) && (name[i] == '@' ==> valid(r.ref))
  {
    var i := IndexSep(name);
    assert i < |name|;
    NamedWas(valid, host, name[..i], name[i] == '@', CutFile(name[i] == '@', name[i + 1..]));
  }

  lemma NamedWas(valid: string -> bool, host: string, path: string, digest: bool, cut: (string, string))
    ensures var got := Named(valid, host, path, digest, cut);
      got.Ok? ==> (got.value.0.ref, got.value.1) == cut && (digest ==> valid(cut.0))
  {
  }

  lemma NameParts(valid: string -> bool, host: string, name: string) returns (at: bool)
    requires ReadName(valid, host, name, true).Ok? && ReadName(valid, host, name, true).value.1 != ""
    ensures var (r, file) := ReadName(valid, host, name, true).value;
      && name == r.path + ((if at then "@" else ":") + r.ref) + ":" + file && Repository(r.path)
      && (if at then valid(r.ref) else ':' !in r.ref)
  {
    var i := IndexSep(name);
    PathWas(valid, host, name, true);
    TailWas(valid, host, name);
    at := name[i] == '@';
    CutWas(at, name[i + 1..]);
    var (r, file) := ReadName(valid, host, name, true).value;
    SplitAtSep(name, i);
    Regroup(r.path, if at then "@" else ":", r.ref, file);
  }

  lemma SplitAtSep(name: string, i: nat)
    requires i < |name| && (name[i] == '@' || name[i] == ':')
    ensures name == name[..i] + (if name[i] == '@' then "@" else ":") + name[i + 1..]
  {
    assert [name[i]] == if name[i] == '@' then "@" else ":";
  }

  lemma NameWithFile(valid: string -> bool, host: string, name: string)
    requires Grammar(valid) && ReadName(valid, host, name, true).Ok? && ReadName(valid, host, name, true).value.1 != ""
    ensures var (r, file) := ReadName(valid, host, name, true).value;
      && name == r.path + PrintedTail(r) + ":" + file && Repository(r.path)
      && (IsDigest(r.ref) || ':' !in r.ref) && (IsDigest(r.ref) ==> valid(r.ref))
  {
    var (r, file) := ReadName(valid, host, name, true).value;
    var at := NameParts(valid, host, name);
    assert IsDigest(r.ref) ==> r.ref[6] in r.ref;
  }

  lemma ParseFileWas(valid: string -> bool, s: string) returns (host: string, name: string)
    requires ParseFile(valid, s).Ok?
    ensures host != "" && '/' !in host && Classify(host + "/") == Registry && !DoubleSlash(host + "/" + name)
    ensures ReadName(valid, host, name, true).Ok? && ReadName(valid, host, name, true).value.1 != ""
    ensures Ok(ParseFile(valid, s).value) == WithFile(ReadName(valid, host, name, true))
  {
    var rest := SplitScheme(s).value.1;
    FileRestWas(valid, rest);
    host := First(rest);
    name := rest[|host| + 1..];
    HostDecides(host, name);
  }

  lemma FileRestWas(valid: string -> bool, rest: string)
    requires Read(valid, true, rest, true).Ok? && Read(valid, true, rest, true).value.0.host != ""
    ensures First(rest) != "" && '/' !in First(rest) && |First(rest)| < |rest| && !DoubleSlash(rest)
    ensures rest == First(rest) + "/" + rest[|First(rest)| + 1..]
    ensures Read(valid, true, rest, true) == ReadName(valid, First(rest), rest[|First(rest)| + 1..], true)
  {
    if '/' !in rest {
      HostOf(valid, "", rest);
    } else {
      CutAt(rest, IndexOf(rest, '/'));
    }
  }

  lemma NameIsRegistryRef(valid: string -> bool, host: string, name: string)
    requires Grammar(valid) && host != "" && '/' !in host && Classify(host + "/") == Registry && !DoubleSlash(host + "/" + name)
    requires ReadName(valid, host, name, true).Ok? && ReadName(valid, host, name, true).value.1 != ""
    ensures var r := ReadName(valid, host, name, true).value.0; RegistryRef(valid, r) && (IsDigest(r.ref) || ':' !in r.ref)
  {
    var (r, file) := ReadName(valid, host, name, true).value;
    HostIsRegistry(host);
    HostOf(valid, host, name);
    SchemeRead(valid, host, name);
    NameWithFile(valid, host, name);
    WithoutFile(host, r.path + PrintedTail(r), file);
  }

  lemma WithoutFile(host: string, name: string, file: string)
    requires !DoubleSlash(host + "/" + (name + ":" + file))
    ensures !DoubleSlash(host + "/" + name)
  {
    assert host + "/" + (name + ":" + file) == (host + "/" + name) + (":" + file);
    DoubleSlashConcat(host + "/" + name, ":" + file);
  }

  /** All that ParseFile returns is what FileUndone reads back: a registry reference with a
      colon-free tag or a digest, and a clean relative path without "..". */
  lemma ParseFileReturns(valid: string -> bool, s: string)
    requires Grammar(valid) && ParseFile(valid, s).Ok?
    ensures var (r, p) := ParseFile(valid, s).value;
      && RegistryRef(valid, r) && (IsDigest(r.ref) || ':' !in r.ref) && Inside(p)
      && ParseFile(valid, String(r) + ":" + p) == Ok((r, p))
  {
    var (r, p) := ParseFile(valid, s).value;
    var host, name := ParseFileWas(valid, s);
    NameIsRegistryRef(valid, host, name);
    FileKept(ReadName(valid, host, name, true).value.1);
    FileUndone(valid, r, p);
  }

  lemma SchemeRead(valid: string -> bool, host: string, name: string)
    ensures var got := ReadName(valid, host, name, true); got.Ok? ==> got.value.0.scheme == OCI
  {
  }

  // ---------- a pack's items ----------

  /** A repository an item can name: its first segment is no host's and it is no path's. */
  predicate ItemName(repo: string) {
    && !StartsWith(repo, '.') && !StartsWith(repo, '~')
    && ('/' !in repo || ('.' !in First(repo) && First(repo) != "localhost"))
  }

  lemma ItemForm(valid: string -> bool, repo: string, d: string)
    requires Grammar(valid) && valid(d) && Repository(repo)
    ensures var rest := repo + ("@" + d);
      ('/' in rest || Classify(rest) == Layout ==> Classify(rest) == Bare) <==> ItemName(repo) && !StartsWith(repo, '/')
  {
    var rest := repo + ("@" + d);
    assert rest[0] == repo[0];
    if '/' in repo {
      FirstInside(repo, "@" + d);
      forall c | c in First(repo) ensures c != ':' { assert c in repo; }
    } else {
      assert '/' !in rest;
    }
  }

  lemma NoSlashAtDigest(valid: string -> bool, d: string)
    requires Grammar(valid) && valid(d)
    ensures !DoubleSlash("@" + d) && !StartsWith("@" + d, '/')
  {
    forall i | 0 < i < |"@" + d| ensures ("@" + d)[i] != '/' {
      assert d[i - 1] in d;
    }
  }

  /** Extract writes every image of a pack as oci://<repository>@<digest>. Reading such an item back
      gives the repository and the digest exactly when the repository is one (not empty, not ending in
      a slash, no '@', no ':', no "//") and its first segment cannot be taken for a host or a path. */
  lemma ItemUndone(valid: string -> bool, repo: string, d: string)
    requires Grammar(valid) && valid(d)
    ensures ParseItem(valid, OCI + MARK + (repo + ("@" + d))) == Ok(Reference(OCI, "", repo, d))
      <==> Repository(repo) && !DoubleSlash(repo) && !StartsWith(repo, '/') && ItemName(repo)
  {
    TrimmedPrefix(OCI + MARK, repo + ("@" + d));
    if Repository(repo) {
      RepositoryItem(valid, repo, d);
    } else {
      ReadsRepository(valid, repo + ("@" + d));
    }
  }

  lemma RepositoryItem(valid: string -> bool, repo: string, d: string)
    requires Grammar(valid) && valid(d) && Repository(repo)
    ensures ReadItem(valid, repo + ("@" + d)) == Ok(Reference(OCI, "", repo, d))
      <==> !DoubleSlash(repo) && !StartsWith(repo, '/') && ItemName(repo)
  {
    DoubleSlashConcat(repo, "@" + d);
    NoSlashAtDigest(valid, d);
    ItemForm(valid, repo, d);
    NameReads(valid, "", repo, "@" + d, d);
    AtCut(repo, d);
  }

  lemma ReadsRepository(valid: string -> bool, rest: string)
    ensures var got := Read(valid, false, rest, false); got.Ok? ==> Repository(got.value.0.path)
  {
    if Read(valid, false, rest, false).Ok? {
      var t := NameWas(valid, "", rest);
    }
  }

  lemma AtCut(repo: string, d: string)
    requires '@' !in repo && ':' !in repo
    ensures var rest := repo + ("@" + d); rest[..IndexOf(rest, '@')] == repo && !TwoColons(repo)
  {
    var rest := repo + ("@" + d);
    assert rest[|repo|] == '@' && rest[..|repo|] == repo;
    IndexOfIs(rest, '@', |repo|);
  }

  /** A registry's repository names an item exactly when its first segment is bare. */
  lemma RepositoryNamesItem(valid: string -> bool, s: string, d: string)
    requires Grammar(valid) && valid(d) && Parse(valid, s).Ok? && Parse(valid, s).value.host != ""
    ensures var repo := Parse(valid, s).value.path;
      ParseItem(valid, OCI + MARK + (repo + ("@" + d))) == Ok(Reference(OCI, "", repo, d)) <==> ItemName(repo)
  {
    var rest := SplitScheme(s).value.1;
    var t := RestWas(valid, Classify(rest) == Registry, rest);
    var r := Parse(valid, s).value;
    DoubleSlashConcat(HostPart(r.host), r.path + t);
    DoubleSlashConcat(r.path, t);
    ItemUndone(valid, r.path, d);
  }
}
