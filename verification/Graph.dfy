/** The content-addressed graph every part of the system walks: digests, and for
    each document (index or manifest) the digests it references, in order. */
module Graph {

  type Digest = nat

  // A digest in the domain is a document; any other digest is a leaf blob.
  type Refs = map<Digest, seq<Digest>>

  function Out(g: Refs, d: Digest): seq<Digest> {
    if d in g then g[d] else []
  }

  ghost predicate IsPath(g: Refs, p: seq<Digest>) {
    |p| > 0 && forall i | 0 <= i < |p| - 1 :: p[i + 1] in Out(g, p[i])
  }

  ghost predicate PathFromTo(g: Refs, p: seq<Digest>, a: Digest, b: Digest) {
    IsPath(g, p) && p[0] == a && p[|p| - 1] == b
  }

  ghost predicate Reaches(g: Refs, a: Digest, b: Digest) {
    exists p :: PathFromTo(g, p, a, b)
  }

  /** References strictly lower the rank: what content addressing gives a graph
      whose every document hashes to its own digest. */
  ghost predicate Ranked(g: Refs, rank: Digest -> nat) {
    forall d, c | c in Out(g, d) :: rank(c) < rank(d)
  }

  lemma ReachesSelf(g: Refs, a: Digest)
    ensures Reaches(g, a, a)
  {
    assert PathFromTo(g, [a], a, a);
  }

  lemma ReachesStep(g: Refs, a: Digest, b: Digest, c: Digest)
    requires Reaches(g, a, b) && c in Out(g, b)
    ensures Reaches(g, a, c)
  {
    var p :| PathFromTo(g, p, a, b);
    assert PathFromTo(g, p + [c], a, c);
  }

  lemma ReachesTransitive(g: Refs, a: Digest, b: Digest, c: Digest)
    requires Reaches(g, a, b) && Reaches(g, b, c)
    ensures Reaches(g, a, c)
  {
    var p :| PathFromTo(g, p, a, b);
    var q :| PathFromTo(g, q, b, c);
    assert PathFromTo(g, p + q[1..], a, c);
  }

  // ---------- reference loops ----------

  /** Nothing the root leads to leads back to itself. */
  ghost predicate LoopFree(g: Refs, root: Digest) {
    forall d, c | Reaches(g, root, d) && c in Out(g, d) :: !Reaches(g, c, d)
  }

  ghost function Nodes(g: Refs): set<Digest> {
    set d, c | d in g && c in g[d] :: c
  }

  ghost function Below(g: Refs, d: Digest): set<Digest> {
    {d} + set x | x in Nodes(g) && Reaches(g, d, x)
  }

  lemma BelowIsReachable(g: Refs, d: Digest, x: Digest)
    ensures x in Below(g, d) <==> Reaches(g, d, x)
  {
    ReachesSelf(g, d);
    if Reaches(g, d, x) && x != d {
      var p :| PathFromTo(g, p, d, x);
      assert x in Out(g, p[|p| - 2]);
    }
  }

  lemma SmallerSet(a: set<Digest>, b: set<Digest>)
    requires a < b
    ensures |a| < |b|
  {
    var x :| x in b && x !in a;
    CardinalityMonotone(a, b - {x});
  }

  lemma CardinalityMonotone<T>(a: set<T>, b: set<T>)
    requires a <= b
    ensures |a| <= |b|
  {
    if a != {} {
      var x :| x in a;
      CardinalityMonotone(a - {x}, b - {x});
    }
  }

  /** What ranks its references leads to no loop. */
  lemma RankedIsLoopFree(g: Refs, root: Digest, rank: Digest -> nat)
    requires Ranked(g, rank)
    ensures LoopFree(g, root)
  {
    forall d, x | Reaches(g, root, d) && x in Out(g, d) ensures !Reaches(g, x, d) {
      if Reaches(g, x, d) {
        var p :| PathFromTo(g, p, x, d);
        PathFalls(g, rank, p, 0);
      }
    }
  }

  lemma {:induction false} PathFalls(g: Refs, rank: Digest -> nat, p: seq<Digest>, i: nat)
    requires Ranked(g, rank) && IsPath(g, p) && i < |p|
    ensures rank(p[|p| - 1]) <= rank(p[i])
    decreases |p| - i
  {
    if i < |p| - 1 {
      assert p[i + 1] in Out(g, p[i]);
      PathFalls(g, rank, p, i + 1);
    }
  }

  /** Without loops the number of digests below a digest is a rank. */
  lemma LoopFreeRanks(g: Refs, root: Digest, d: Digest, c: Digest)
    requires LoopFree(g, root) && Reaches(g, root, d) && c in Out(g, d)
    ensures |Below(g, c)| < |Below(g, d)|
  {
    forall x ensures x in Below(g, c) ==> x in Below(g, d) {
      BelowIsReachable(g, c, x);
      BelowIsReachable(g, d, x);
      if Reaches(g, c, x) {
        ReachesSelf(g, d);
        ReachesStep(g, d, d, c);
        ReachesTransitive(g, d, c, x);
      }
    }
    BelowIsReachable(g, c, d);
    SmallerSet(Below(g, c), Below(g, d));
  }
}
