/** The order of a sequential copy, said of each document it pushes: a stretch of the log for what it
    references, one after the other, and then the document. */
module TransferOrder {
  import opened Graph
  import opened Transfer
  import opened TransferResults
  import opened TransferSerial
  import opened TransferRoot

  /** A stretch of the log that brings a reference: empty where it was pushed before, and otherwise ending in it
      and holding only what it leads to. */
  ghost predicate Stretch(g: Refs, log: seq<Digest>, a: nat, b: nat, k: Digest) {
    && a <= b <= |log|
    && if k in log[..a] then b == a else a < b && log[b - 1] == k && forall j | a <= j < b :: Reaches(g, k, log[j])
  }

  /** What a document references, in order, a stretch each, and then the document. */
  ghost predicate Laid(g: Refs, log: seq<Digest>, i: nat, cuts: seq<nat>) {
    && i < |log| && |cuts| == |Out(g, log[i])| + 1 && cuts[|cuts| - 1] == i
    && forall j | 0 <= j < |cuts| - 1 :: Stretch(g, log, cuts[j], cuts[j + 1], Out(g, log[i])[j])
  }

  lemma LaidLonger(g: Refs, log: seq<Digest>, more: seq<Digest>, i: nat, cuts: seq<nat>)
    requires Laid(g, log, i, cuts) && log <= more
    ensures Laid(g, more, i, cuts)
  {
    forall j | 0 <= j < |cuts| - 1 ensures Stretch(g, more, cuts[j], cuts[j + 1], Out(g, log[i])[j]) {
      assert Stretch(g, log, cuts[j], cuts[j + 1], Out(g, log[i])[j]);
      assert more[..cuts[j]] == log[..cuts[j]];
    }
  }

  /** What a visit adds it reaches. */
  lemma {:induction false} VisitReaches(g: Refs, rank: Digest -> nat, log: seq<Digest>, d: Digest, j: nat)
    requires Ranked(g, rank) && |log| <= j < |Visit(g, rank, log, d)|
    ensures Reaches(g, d, Visit(g, rank, log, d)[j])
    decreases rank(d), 1, 0
  {
    ReachesSelf(g, d);
    if j < |Visit(g, rank, log, d)| - 1 {
      VisitAllReaches(g, rank, rank(d), log, d, Out(g, d), j);
    }
  }

  lemma {:induction false} VisitAllReaches(g: Refs, rank: Digest -> nat, bound: nat, log: seq<Digest>, d: Digest,
                                           ds: seq<Digest>, j: nat)
    requires Ranked(g, rank) && (forall x | x in ds :: rank(x) < bound && x in Out(g, d))
    requires |log| <= j < |VisitAll(g, rank, bound, log, ds)|
    ensures Reaches(g, d, VisitAll(g, rank, bound, log, ds)[j])
    decreases bound, 0, |ds|
  {
    var first := Visit(g, rank, log, ds[0]);
    VisitExtends(g, rank, log, ds[0]);
    VisitAllExtends(g, rank, bound, first, ds[1..]);
    if j < |first| {
      VisitReaches(g, rank, log, ds[0], j);
      ReachesSelf(g, d);
      ReachesStep(g, d, d, ds[0]);
      ReachesTransitive(g, d, ds[0], first[j]);
    } else {
      VisitAllReaches(g, rank, bound, first, d, ds[1..], j);
    }
  }

  lemma VisitIsStretch(g: Refs, rank: Digest -> nat, log: seq<Digest>, d: Digest)
    requires Ranked(g, rank)
    ensures log <= Visit(g, rank, log, d) && Stretch(g, Visit(g, rank, log, d), |log|, |Visit(g, rank, log, d)|, d)
  {
    VisitExtends(g, rank, log, d);
    var all := Visit(g, rank, log, d);
    assert all[..|log|] == log;
    forall j | |log| <= j < |all| ensures Reaches(g, d, all[j]) { VisitReaches(g, rank, log, d, j); }
  }

  /** Siblings are visited a stretch each. */
  lemma {:induction false} AllStretches(g: Refs, rank: Digest -> nat, bound: nat, log: seq<Digest>, ds: seq<Digest>)
    returns (cuts: seq<nat>)
    requires Ranked(g, rank) && forall x | x in ds :: rank(x) < bound
    ensures var all := VisitAll(g, rank, bound, log, ds);
      |cuts| == |ds| + 1 && cuts[0] == |log| && cuts[|ds|] == |all| && log <= all &&
      forall j | 0 <= j < |ds| :: Stretch(g, all, cuts[j], cuts[j + 1], ds[j])
    decreases |ds|
  {
    if ds == [] {
      cuts := [|log|];
    } else {
      var first := Visit(g, rank, log, ds[0]);
      VisitIsStretch(g, rank, log, ds[0]);
      var rest := AllStretches(g, rank, bound, first, ds[1..]);
      cuts := [|log|] + rest;
      var all := VisitAll(g, rank, bound, log, ds);
      forall j | 0 <= j < |ds| ensures Stretch(g, all, cuts[j], cuts[j + 1], ds[j]) {
        if j == 0 {
          assert all[..|log|] == first[..|log|] && forall i | 0 <= i < |first| :: all[i] == first[i];
        } else {
          assert Stretch(g, all, rest[j - 1], rest[j], ds[1..][j - 1]);
        }
      }
    }
  }

  /** Whatever a visit adds is laid so. */
  lemma {:induction false} VisitLays(g: Refs, rank: Digest -> nat, log: seq<Digest>, d: Digest, x: Digest)
    returns (i: nat, cuts: seq<nat>)
    requires Ranked(g, rank) && x in Visit(g, rank, log, d) && x !in log
    ensures Laid(g, Visit(g, rank, log, d), i, cuts) && Visit(g, rank, log, d)[i] == x
    decreases rank(d), 1, 0
  {
    var all := VisitAll(g, rank, rank(d), log, Out(g, d));
    if x == d {
      i := |all|;
      cuts := AllStretches(g, rank, rank(d), log, Out(g, d));
      forall j | 0 <= j < |cuts| - 1 ensures Stretch(g, all + [d], cuts[j], cuts[j + 1], Out(g, d)[j]) {
        assert Stretch(g, all, cuts[j], cuts[j + 1], Out(g, d)[j]);
        assert (all + [d])[..cuts[j]] == all[..cuts[j]];
      }
    } else {
      i, cuts := VisitAllLays(g, rank, rank(d), log, Out(g, d), x);
      LaidLonger(g, all, all + [d], i, cuts);
    }
  }

  lemma {:induction false} VisitAllLays(g: Refs, rank: Digest -> nat, bound: nat, log: seq<Digest>, ds: seq<Digest>, x: Digest)
    returns (i: nat, cuts: seq<nat>)
    requires Ranked(g, rank) && (forall y | y in ds :: rank(y) < bound)
    requires x in VisitAll(g, rank, bound, log, ds) && x !in log
    ensures var all := VisitAll(g, rank, bound, log, ds); Laid(g, all, i, cuts) && all[i] == x
    decreases bound, 0, |ds|
  {
    var first := Visit(g, rank, log, ds[0]);
    if x in first {
      i, cuts := VisitLays(g, rank, log, ds[0], x);
      VisitAllExtends(g, rank, bound, first, ds[1..]);
      LaidLonger(g, first, VisitAll(g, rank, bound, first, ds[1..]), i, cuts);
    } else {
      i, cuts := VisitAllLays(g, rank, bound, first, ds[1..], x);
    }
  }

  /** So at a limit of 1 the log of a successful copy is laid out, at every document it pushed. */
  lemma SerialStretches(c: Config, t: State, x: Digest) returns (i: nat, cuts: seq<nat>)
    requires c.mode == KeyThenSlot && c.limit <= 1 && Succeeds(c, t) && x in t.log
    ensures Laid(c.refs, t.log, i, cuts) && t.log[i] == x
  {
    var rank := SerialIsPostOrder(c, t);
    var g := Under(c.refs, c.root);
    i, cuts := VisitLays(g, rank, [], c.root, x);
    SuccessIsClosure(c, t);
    assert Out(g, x) == Out(c.refs, x);
    forall j | 0 <= j < |cuts| - 1 ensures Stretch(c.refs, t.log, cuts[j], cuts[j + 1], Out(c.refs, x)[j]) {
      assert Stretch(g, t.log, cuts[j], cuts[j + 1], Out(g, x)[j]);
      UnderStretch(c.refs, c.root, t.log, cuts[j], cuts[j + 1], Out(g, x)[j]);
    }
  }

  lemma UnderStretch(g: Refs, root: Digest, log: seq<Digest>, a: nat, b: nat, k: Digest)
    requires Stretch(Under(g, root), log, a, b, k)
    ensures Stretch(g, log, a, b, k)
  {
    forall y | Reaches(Under(g, root), k, y) ensures Reaches(g, k, y) {
      var p :| PathFromTo(Under(g, root), p, k, y);
      forall i | 0 <= i < |p| - 1 ensures p[i + 1] in Out(g, p[i]) { assert p[i + 1] in Out(Under(g, root), p[i]); }
      assert PathFromTo(g, p, k, y);
    }
  }
}
