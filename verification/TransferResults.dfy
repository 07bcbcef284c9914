/** What a transfer leaves in the destination: children before parents in every
    state, exactly the closure of the root on success, the same at every limit. */
module TransferResults {
  import opened Graph
  import opened Budgets
  import opened Transfer
  import opened TransferInvariant

  // ---------- linear extensions ----------

  /** Every digest comes after everything it references. */
  ghost predicate LinearExtension(g: Refs, log: seq<Digest>) {
    forall i, x | 0 <= i < |log| && x in Out(g, log[i]) :: x in log[..i]
  }

  /** In a linear extension whatever a digest reaches sits at or before it. */
  lemma {:induction false} ReachedBefore(g: Refs, log: seq<Digest>, i: nat, p: seq<Digest>)
    requires LinearExtension(g, log) && i < |log| && IsPath(g, p) && p[0] == log[i]
    ensures p[|p| - 1] in log[..i + 1]
    ensures |p| > 1 ==> p[|p| - 1] in log[..i]
    decreases |p|
  {
    if |p| > 1 {
      assert p[1] in log[..i];
      var j :| 0 <= j < i && log[j] == p[1];
      ReachedBefore(g, log, j, p[1..]);
      assert log[..j + 1] <= log[..i];
      assert forall x | x in log[..j + 1] :: x in log[..i];
    }
  }

  lemma LogExtends(c: Config, s: State)
    requires Data(c, s)
    ensures LinearExtension(c.refs, s.log)
  {
    forall i, x | 0 <= i < |s.log| && x in Out(c.refs, s.log[i]) ensures x in s.log[..i] {
      assert LogAt(c, s, i);
    }
  }

  /** Children before parents: in every reachable state of every run, failed and
      cancelled ones included, a pushed digest's descendants are all in the destination
      and were pushed before it. */
  lemma ChildrenFirst(c: Config, s: State, i: nat, x: Digest)
    requires Reachable(c, s) && i < |s.log| && Reaches(c.refs, s.log[i], x)
    ensures x in s.dst
    ensures x in s.log[..i + 1]
  {
    ReachableInv(c, s);
    LogExtends(c, s);
    var p :| PathFromTo(c.refs, p, s.log[i], x);
    ReachedBefore(c.refs, s.log, i, p);
    assert forall y | y in s.log[..i + 1] :: y in s.log;
  }

  /** Nothing but the root's closure is ever added. */
  lemma OnlyClosureAdded(c: Config, s: State, x: Digest)
    requires Reachable(c, s) && x in s.dst
    ensures x in c.before || (x in s.log && Reaches(c.refs, c.root, x))
  {
    ReachableInv(c, s);
    if x in s.log {
      var i :| 0 <= i < |s.log| && s.log[i] == x;
      assert LogAt(c, s, i);
    }
  }

  ghost predicate Succeeds(c: Config, s: State) {
    Reachable(c, s) && Done(s) && s.frames[0].pc == Returned(None)
  }

  /** A successful run leaves the old content plus exactly the closure of the root, and
      has pushed exactly that closure. */
  lemma SuccessIsClosure(c: Config, s: State)
    requires Succeeds(c, s)
    ensures forall x :: x in s.log <==> Reaches(c.refs, c.root, x)
    ensures forall x :: x in s.dst <==> x in c.before || Reaches(c.refs, c.root, x)
  {
    ReachableInv(c, s);
    assert FrameData(c, s, 0) && ShapeAt(c, s.frames, 0);
    var i :| 0 <= i < |s.log| && s.log[i] == c.root;
    forall x ensures x in s.log <==> Reaches(c.refs, c.root, x) {
      if Reaches(c.refs, c.root, x) {
        ChildrenFirst(c, s, i, x);
        assert forall y | y in s.log[..i + 1] :: y in s.log;
      }
      if x in s.log {
        var k :| 0 <= k < |s.log| && s.log[k] == x;
        assert LogAt(c, s, k);
      }
    }
  }

  /** Every successful run of the same transfer, at any two limits, under any two
      interleavings and under either discipline, ends in the same destination. */
  lemma ScheduleIndependent(c1: Config, s1: State, c2: Config, s2: State)
    requires c1.refs == c2.refs && c1.root == c2.root && c1.before == c2.before
    requires Succeeds(c1, s1) && Succeeds(c2, s2)
    ensures s1.dst == s2.dst
    ensures multiset(s1.log) == multiset(s2.log)
  {
    SuccessIsClosure(c1, s1);
    SuccessIsClosure(c2, s2);
    LogCounts(c1, s1);
    LogCounts(c2, s2);
    forall x ensures multiset(s1.log)[x] == multiset(s2.log)[x] {}
  }

  lemma LogCounts(c: Config, s: State)
    requires Reachable(c, s)
    ensures forall x :: multiset(s.log)[x] == if x in s.log then 1 else 0
  {
    ReachableInv(c, s);
    LogCountsUpTo(c, s, |s.log|);
    assert s.log[..|s.log|] == s.log;
  }

  lemma {:induction false} LogCountsUpTo(c: Config, s: State, n: nat)
    requires Data(c, s) && n <= |s.log|
    ensures forall x :: multiset(s.log[..n])[x] == if x in s.log[..n] then 1 else 0
  {
    if n > 0 {
      LogCountsUpTo(c, s, n - 1);
      assert LogAt(c, s, n - 1);
      assert s.log[..n] == s.log[..n - 1] + [s.log[n - 1]];
    }
  }

  // ---------- rerunning ----------

  /** The original content, and beyond it only digests of the closure. */
  ghost predicate Leftover(c: Config, have: set<Digest>) {
    c.before <= have && forall x | x in have :: x in c.before || Reaches(c.refs, c.root, x)
  }

  /** However a run ends (failed, cancelled or cut off anywhere) what it leaves is a
      leftover, and so is what further attempts from there leave. */
  lemma AttemptLeavesLeftover(c: Config, again: Config, s: State)
    requires again.refs == c.refs && again.root == c.root && Leftover(c, again.before)
    requires Reachable(again, s)
    ensures Leftover(c, s.dst)
  {
    ReachableInv(again, s);
    forall x | x in s.dst ensures x in c.before || Reaches(c.refs, c.root, x) {
      OnlyClosureAdded(again, s, x);
    }
  }

  /** A run that succeeds on such a leftover ends where one clean run ends. */
  lemma RerunResumes(c: Config, clean: State, again: Config, resumed: State)
    requires again.refs == c.refs && again.root == c.root && Leftover(c, again.before)
    requires Succeeds(again, resumed) && Succeeds(c, clean)
    ensures resumed.dst == clean.dst
  {
    SuccessIsClosure(again, resumed);
    SuccessIsClosure(c, clean);
  }
}
