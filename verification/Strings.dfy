/** The few string and path operations references are read with. */
module Strings {

  /** Position of the first c; the length when there is none. */
  function IndexOf(s: string, c: char): (i: nat)
    ensures i <= |s|
    ensures i < |s| ==> s[i] == c
    ensures forall j | 0 <= j < i :: s[j] != c
  {
    if s == "" || s[0] == c then 0
    else
      assert forall j | 0 < j < |s| :: s[j] == s[1..][j - 1];
      1 + IndexOf(s[1..], c)
  }

  /** Position of the first '@' or ':'. */
  function IndexSep(s: string): (i: nat)
    ensures i <= |s|
    ensures i < |s| ==> s[i] == '@' || s[i] == ':'
    ensures forall j | 0 <= j < i :: s[j] != '@' && s[j] != ':'
  {
    if s == "" || s[0] == '@' || s[0] == ':' then 0
    else
      assert forall j | 0 < j < |s| :: s[j] == s[1..][j - 1];
      1 + IndexSep(s[1..])
  }

  lemma IndexOfIs(s: string, c: char, i: nat)
    requires i <= |s| && (i < |s| ==> s[i] == c) && forall j | 0 <= j < i :: s[j] != c
    ensures IndexOf(s, c) == i
  {
  }

  lemma IndexSepIs(s: string, i: nat)
    requires i <= |s| && (i < |s| ==> s[i] == '@' || s[i] == ':')
    requires forall j | 0 <= j < i :: s[j] != '@' && s[j] != ':'
    ensures IndexSep(s) == i
  {
  }

  predicate DoubleSlash(s: string) {
    exists i :: 0 <= i < |s| - 1 && s[i] == '/' && s[i + 1] == '/'
  }

  predicate StartsWith(s: string, c: char) {
    s != "" && s[0] == c
  }

  predicate EndsWith(s: string, c: char) {
    s != "" && s[|s| - 1] == c
  }

  function TrimPrefix(s: string, p: string): string {
    if p <= s then s[|p|..] else s
  }

  lemma TrimmedPrefix(p: string, s: string)
    ensures p <= p + s && TrimPrefix(p + s, p) == s
  {
  }

  lemma Assoc(a: string, b: string, c: string)
    ensures a + b + c == a + (b + c)
  {
  }

  /** A string around the slash at i. */
  lemma CutAt(s: string, i: nat)
    requires i < |s| && s[i] == '/'
    ensures s == s[..i] + "/" + s[i + 1..]
  {
  }

  lemma CutLast(s: string)
    requires EndsWith(s, '/')
    ensures s == s[..|s| - 1] + "/"
  {
  }

  lemma DoubleSlashConcat(a: string, b: string)
    ensures DoubleSlash(a + b) <==> DoubleSlash(a) || DoubleSlash(b) || (EndsWith(a, '/') && StartsWith(b, '/'))
  {
    var s := a + b;
    if DoubleSlash(s) {
      var i :| 0 <= i < |s| - 1 && s[i] == '/' && s[i + 1] == '/';
      if i + 1 < |a| {
        assert a[i] == '/' && a[i + 1] == '/';
      } else if i >= |a| {
        assert b[i - |a|] == '/' && b[i - |a| + 1] == '/';
      }
    }
    if DoubleSlash(a) {
      var i :| 0 <= i < |a| - 1 && a[i] == '/' && a[i + 1] == '/';
      assert s[i] == '/' && s[i + 1] == '/';
    }
    if DoubleSlash(b) {
      var i :| 0 <= i < |b| - 1 && b[i] == '/' && b[i + 1] == '/';
      assert s[|a| + i] == '/' && s[|a| + i + 1] == '/';
    }
    if EndsWith(a, '/') && StartsWith(b, '/') {
      assert s[|a| - 1] == '/' && s[|a| - 1 + 1] == '/';
    }
  }

  // ---------- slash-separated paths ----------

  function Split(p: string): (segs: seq<string>)
    ensures |segs| > 0 && forall i | 0 <= i < |segs| :: '/' !in segs[i]
    decreases |p|
  {
    var i := IndexOf(p, '/');
    if i == |p| then [p] else [p[..i]] + Split(p[i + 1..])
  }

  function Join(segs: seq<string>): string
  {
    if segs == [] then ""
    else if |segs| == 1 then segs[0]
    else segs[0] + "/" + Join(segs[1..])
  }

  lemma {:induction false} JoinSplit(p: string)
    ensures Join(Split(p)) == p
    decreases |p|
  {
    var i := IndexOf(p, '/');
    if i < |p| {
      JoinSplit(p[i + 1..]);
      assert Split(p)[1..] == Split(p[i + 1..]);
      CutAt(p, i);
    }
  }

  lemma {:induction false} SplitJoin(segs: seq<string>)
    requires |segs| > 0 && forall i | 0 <= i < |segs| :: '/' !in segs[i]
    ensures Split(Join(segs)) == segs
  {
    var p := Join(segs);
    if |segs| == 1 {
      IndexOfIs(p, '/', |p|);
      assert segs == [p];
    } else {
      SplitOff(segs[0], Join(segs[1..]));
      SplitJoin(segs[1..]);
      assert segs == [segs[0]] + segs[1..];
    }
  }

  lemma SplitOff(seg: string, rest: string)
    requires '/' !in seg
    ensures Split(seg + "/" + rest) == [seg] + Split(rest)
  {
    var p := seg + "/" + rest;
    assert p[|seg|] == '/';
    forall j | 0 <= j < |seg| ensures p[j] != '/' { assert seg[j] in seg; }
    IndexOfIs(p, '/', |seg|);
    assert p[..|seg|] == seg && p[|seg| + 1..] == rest;
  }

  /** path.Clean on a path that is not rooted: lexically, "" and "." dropped and ".."
      taken back against the name before it. */
  function CleanSegs(segs: seq<string>): seq<string> {
    if segs == [] then []
    else
      var done := CleanSegs(segs[..|segs| - 1]);
      var last := segs[|segs| - 1];
      if last == "" || last == "." then done
      else if last == ".." && done != [] && done[|done| - 1] != ".." then done[..|done| - 1]
      else done + [last]
  }

  function Clean(p: string): string {
    var segs := CleanSegs(Split(p));
    if segs == [] then "." else Join(segs)
  }

  predicate Name(seg: string) {
    seg != "" && seg != "." && seg != ".." && '/' !in seg
  }

  /** A clean relative path to something inside: names only. */
  predicate Inside(p: string) {
    forall i | 0 <= i < |Split(p)| :: Name(Split(p)[i])
  }

  /** A clean path climbs first, if at all, and then descends by names. */
  lemma {:induction false} CleanSegsForm(segs: seq<string>)
    requires forall i | 0 <= i < |segs| :: '/' !in segs[i]
    ensures forall i | 0 <= i < |CleanSegs(segs)| :: Name(CleanSegs(segs)[i]) || CleanSegs(segs)[i] == ".."
    ensures forall i, j | 0 <= i < j < |CleanSegs(segs)| && CleanSegs(segs)[j] == ".." :: CleanSegs(segs)[i] == ".."
  {
    if segs != [] {
      CleanSegsForm(segs[..|segs| - 1]);
    }
  }

  lemma {:induction false} CleanSegsOfNames(segs: seq<string>)
    requires forall i | 0 <= i < |segs| :: Name(segs[i])
    ensures CleanSegs(segs) == segs
  {
    if segs != [] {
      CleanSegsOfNames(segs[..|segs| - 1]);
      assert segs == segs[..|segs| - 1] + [segs[|segs| - 1]];
    }
  }

  /** Where a relative path leads: so many directories up, and then down by names. */
  datatype Position = Position(up: nat, names: seq<string>)

  function Step(at: Position, seg: string): Position {
    if seg == "" || seg == "." then at
    else if seg != ".." then at.(names := at.names + [seg])
    else if at.names != [] then at.(names := at.names[..|at.names| - 1])
    else at.(up := at.up + 1)
  }

  function Walk(at: Position, segs: seq<string>): Position {
    if segs == [] then at else Step(Walk(at, segs[..|segs| - 1]), segs[|segs| - 1])
  }

  /** From anywhere, a cleaned path leads where the path does. */
  lemma {:induction false} CleanLeadsThere(at: Position, segs: seq<string>)
    requires forall i | 0 <= i < |segs| :: '/' !in segs[i]
    ensures Walk(at, CleanSegs(segs)) == Walk(at, segs)
  {
    if segs != [] {
      var before, last := segs[..|segs| - 1], segs[|segs| - 1];
      CleanLeadsThere(at, before);
      CleanSegsForm(before);
      var done := CleanSegs(before);
      if last == ".." && done != [] && done[|done| - 1] != ".." {
        assert Name(done[|done| - 1]);
        assert Walk(at, done).names[..|Walk(at, done).names| - 1] == Walk(at, done[..|done| - 1]).names;
      } else {
        assert (done + [last])[..|done|] == done;
      }
    }
  }

  /** Cleaning is the identity exactly on what is clean already; for a path that is not
      "." and does not climb out, that is: names only. */
  lemma CleanIsInside(p: string)
    ensures Inside(p) ==> Clean(p) == p && p != "." && p != ".." && !("../" <= p)
    ensures var q := Clean(p); q != "." && q != ".." && !("../" <= q) ==> Inside(q)
  {
    var segs := Split(p);
    JoinSplit(p);
    if Inside(p) {
      CleanSegsOfNames(segs);
      assert segs[0] != ".." && segs[0] != ".";
      SplitHead(p);
    }
    CleanSegsForm(segs);
    var out := CleanSegs(segs);
    if out != [] {
      SplitJoin(out);
      if out[0] == ".." {
        assert "../" <= Join(out) || |out| == 1;
      } else {
        assert forall j | 0 < j < |out| :: out[j] != "..";
      }
    }
  }

  lemma SplitHead(p: string)
    ensures Split(p)[0] == p[..IndexOf(p, '/')]
    ensures "../" <= p ==> Split(p)[0] == ".."
    ensures p == "." ==> Split(p)[0] == "."
    ensures p == ".." ==> Split(p)[0] == ".."
  {
    if "../" <= p {
      assert p[0] == '.' && p[1] == '.' && p[2] == '/';
      IndexOfIs(p, '/', 2);
    }
  }

  /** A path of names does not start with a slash and has no empty part. */
  lemma {:induction false} InsideIsTidy(p: string)
    requires Inside(p)
    ensures p != "" && p[0] != '/' && !EndsWith(p, '/') && !DoubleSlash(p)
    decreases |p|
  {
    var i := IndexOf(p, '/');
    assert Name(Split(p)[0]);
    if i < |p| {
      var q := p[i + 1..];
      forall j | 0 <= j < |Split(q)| ensures Name(Split(q)[j]) { assert Split(p)[j + 1] == Split(q)[j]; }
      InsideIsTidy(q);
      forall j | 0 <= j < |p| - 1 ensures p[j] != '/' || p[j + 1] != '/' {
        if j == i {
          assert p[j + 1] == q[0];
        } else if j > i {
          assert p[j] == q[j - i - 1] && p[j + 1] == q[j - i];
        }
      }
      assert p[|p| - 1] == q[|q| - 1];
    }
  }

  lemma {:induction false} JoinAppend(segs: seq<string>, last: string)
    requires segs != []
    ensures Join(segs + [last]) == Join(segs) + "/" + last
  {
    var all := segs + [last];
    assert all[1..] == segs[1..] + [last];
    if |segs| == 1 {
      assert Join(all[1..]) == last;
    } else {
      JoinAppend(segs[1..], last);
      assert Join(all) == segs[0] + "/" + (Join(segs[1..]) + "/" + last);
    }
  }

  /** A trailing slash is cleaned away. */
  lemma CleanSlash(d: string)
    requires Inside(d)
    ensures Clean(d) == d && Clean(d + "/") == d
  {
    CleanIsInside(d);
    JoinSplit(d);
    JoinAppend(Split(d), "");
    SplitJoin(Split(d) + [""]);
    assert d + "/" + "" == d + "/";
    assert (Split(d) + [""])[..|Split(d)|] == Split(d);
  }

  /** What is clean and below something inside is inside. */
  lemma CleanBelowInside(d: string, p: string)
    requires Inside(d) && d + "/" <= p && Clean(p) == p
    ensures Inside(p)
  {
    CleanIsInside(p);
    CleanIsInside(d);
    InsideIsTidy(d);
    assert p[..|d|] == d;
  }
}
