/**
 The posting redirect graph: `posting_redirects` is a functional graph, each posting
 redirecting to at most one other. The importer follows chains to their sink
 (legacy_import.py); the audit counts the graph's cycles (audit.py).
 */
module Redirects {
  import opened Wrappers

  // Posting ids are opaque; only equality matters here.
  type PostingId = int
  type RedirectMap = map<PostingId, PostingId>

  // ------------------------------------------------------------------ chains

  /** The posting `n` redirects away from `x`, or None if the chain stops earlier. */
  ghost function Walk(g: RedirectMap, x: PostingId, n: nat): Option<PostingId>
    decreases n
  {
    if n == 0 then Some(x)
    else if x in g then Walk(g, g[x], n - 1)
    else None
  }

  ghost predicate Reaches(g: RedirectMap, x: PostingId, y: PostingId) {
    exists n: nat :: Walk(g, x, n) == Some(y)
  }

  /** `s` ends the chain that starts at `x`. */
  ghost predicate IsSink(g: RedirectMap, x: PostingId, s: PostingId) {
    s !in g && Reaches(g, x, s)
  }

  ghost predicate OnCycle(g: RedirectMap, x: PostingId) {
    exists n: nat :: n > 0 && Walk(g, x, n) == Some(x)
  }

  ghost predicate Acyclic(g: RedirectMap) {
    forall x :: !OnCycle(g, x)
  }

  /** All postings on the chain from `x` that redirect further. */
  ghost function CycleOf(g: RedirectMap, x: PostingId): set<PostingId> {
    set y | y in g.Keys && Reaches(g, x, y)
  }

  /** The distinct cycles of the graph, each as its set of postings. */
  ghost function Cycles(g: RedirectMap): set<set<PostingId>> {
    set x | x in g.Keys && OnCycle(g, x) :: CycleOf(g, x)
  }

  function Members(path: seq<PostingId>): set<PostingId> {
    set p | p in path
  }

  /** The terminal posting of the chain from `x`, if the chain ends. */
  ghost function SinkOf(g: RedirectMap, x: PostingId): (r: Option<PostingId>)
    ensures r.Some? ==> IsSink(g, x, r.value)
    ensures r.None? ==> forall s :: !IsSink(g, x, s)
  {
    if exists s :: IsSink(g, x, s) then
      var s :| IsSink(g, x, s);
      Some(s)
    else None
  }

  lemma {:induction false} WalkSplit(g: RedirectMap, x: PostingId, m: nat, n: nat)
    requires Walk(g, x, m).Some?
    ensures Walk(g, x, m + n) == Walk(g, Walk(g, x, m).value, n)
    decreases m
  {
    if m > 0 {
      WalkSplit(g, g[x], m - 1, n);
    }
  }

  lemma {:induction false} WalkPrefixDefined(g: RedirectMap, x: PostingId, m: nat, n: nat)
    requires m <= n && Walk(g, x, n).Some?
    ensures Walk(g, x, m).Some?
    ensures m < n ==> Walk(g, x, m).value in g
    decreases m
  {
    if m > 0 {
      WalkPrefixDefined(g, g[x], m - 1, n - 1);
    }
  }

  lemma ReachesTransitive(g: RedirectMap, x: PostingId, y: PostingId, z: PostingId)
    requires Reaches(g, x, y) && Reaches(g, y, z)
    ensures Reaches(g, x, z)
  {
    var m: nat :| Walk(g, x, m) == Some(y);
    var n: nat :| Walk(g, y, n) == Some(z);
    WalkSplit(g, x, m, n);
    assert Walk(g, x, m + n) == Some(z);
  }

  /** A chain ends in at most one place. */
  lemma SinkUnique(g: RedirectMap, x: PostingId, s: PostingId, t: PostingId)
    requires IsSink(g, x, s) && IsSink(g, x, t)
    ensures s == t
  {
    var m: nat :| Walk(g, x, m) == Some(s);
    var n: nat :| Walk(g, x, n) == Some(t);
    if m < n {
      WalkPrefixDefined(g, x, m, n);
    } else if n < m {
      WalkPrefixDefined(g, x, n, m);
    }
  }

  /** Everything a posting on a cycle reaches leads back to it. */
  lemma {:induction false} ReachBack(g: RedirectMap, x: PostingId, n: nat, k: nat, y: PostingId)
    requires n > 0 && Walk(g, x, n) == Some(x) && Walk(g, x, k) == Some(y)
    ensures Reaches(g, y, x)
    decreases k
  {
    if k <= n {
      WalkSplit(g, x, k, n - k);
      assert Walk(g, y, n - k) == Some(x);
    } else {
      WalkSplit(g, x, n, k - n);
      ReachBack(g, x, n, k - n, y);
    }
  }

  lemma CycleReachBack(g: RedirectMap, x: PostingId, y: PostingId)
    requires OnCycle(g, x) && Reaches(g, x, y)
    ensures Reaches(g, y, x) && y in g
  {
    var n: nat :| n > 0 && Walk(g, x, n) == Some(x);
    var k: nat :| Walk(g, x, k) == Some(y);
    ReachBack(g, x, n, k, y);
    var m: nat :| Walk(g, y, m) == Some(x);
    if m == 0 {
      WalkPrefixDefined(g, x, 0, n);
    }
  }

  lemma ReachesStep(g: RedirectMap, x: PostingId, y: PostingId)
    requires Reaches(g, x, y) && y in g
    ensures Reaches(g, x, g[y])
  {
    var n: nat :| Walk(g, x, n) == Some(y);
    WalkSplit(g, x, n, 1);
    assert Walk(g, g[y], 0) == Some(g[y]);
    assert Walk(g, x, n + 1) == Some(g[y]);
  }

  lemma ComesBackSoOnCycle(g: RedirectMap, x: PostingId)
    requires x in g && Reaches(g, g[x], x)
    ensures OnCycle(g, x)
  {
    var n: nat :| Walk(g, g[x], n) == Some(x);
    assert Walk(g, x, n + 1) == Some(x);
  }

  // ------------------------------------------------------------------ trails

  /** `path` follows the redirects from `start`, without repeating, to just before `current`. */
  ghost predicate IsTrail(
    g: RedirectMap, start: PostingId, path: seq<PostingId>, current: PostingId)
    decreases |path|
  {
    if path == [] then start == current
    else
      var last := path[|path| - 1];
      && last in g && g[last] == current
      && last !in path[..|path| - 1]
      && IsTrail(g, start, path[..|path| - 1], last)
  }

  lemma TrailStep(g: RedirectMap, start: PostingId, path: seq<PostingId>, current: PostingId)
    requires IsTrail(g, start, path, current) && current in g && current !in path
    ensures IsTrail(g, start, path + [current], g[current])
    ensures Members(path + [current]) == Members(path) + {current}
    ensures |g.Keys - Members(path + [current])| < |g.Keys - Members(path)|
  {
    assert (path + [current])[..|path|] == path;
    FewerLeft(g, path, current);
  }

  lemma MembersUpTo(order: seq<PostingId>, s: nat)
    requires s < |order|
    ensures Members(order[..s + 1]) == Members(order[..s]) + {order[s]} && order[s] in Members(order)
  {
    assert order[..s + 1] == order[..s] + [order[s]];
  }

  lemma FewerLeft(g: RedirectMap, path: seq<PostingId>, current: PostingId)
    requires current in g && current !in path
    ensures |g.Keys - Members(path + [current])| < |g.Keys - Members(path)|
    ensures Members(path + [current]) == Members(path) + {current}
  {
    var left := g.Keys - Members(path);
    assert Members(path + [current]) == Members(path) + {current};
    assert g.Keys - Members(path + [current]) == left - {current};
    assert |left - {current}| == |left| - 1;
  }

  lemma {:induction false} TrailAt(
    g: RedirectMap, start: PostingId, path: seq<PostingId>, current: PostingId, i: nat)
    requires IsTrail(g, start, path, current) && i < |path|
    ensures path[i] in g && g[path[i]] == (path + [current])[i + 1]
    ensures path[i] !in path[..i]
    ensures path[0] == start
    decreases |path|
  {
    var n := |path| - 1;
    if i < n {
      TrailAt(g, start, path[..n], path[n], i);
      assert path[..n][..i] == path[..i];
    } else if n > 0 {
      TrailAt(g, start, path[..n], path[n], 0);
    }
  }

  lemma {:induction false} TrailReaches(
    g: RedirectMap, start: PostingId, path: seq<PostingId>, current: PostingId, i: nat, j: nat)
    requires IsTrail(g, start, path, current) && i <= j <= |path|
    ensures Reaches(g, (path + [current])[i], (path + [current])[j])
    decreases j
  {
    var all := path + [current];
    if i == j {
      assert Walk(g, all[i], 0) == Some(all[i]);
    } else {
      TrailReaches(g, start, path, current, i, j - 1);
      TrailAt(g, start, path, current, j - 1);
      ReachesStep(g, all[i], all[j - 1]);
    }
  }

  /** A trail that returns to one of its postings closes a cycle through everything from there on. */
  lemma ReturningTrail(g: RedirectMap, start: PostingId, path: seq<PostingId>, k: nat, i: nat)
    requires k <= i < |path| && IsTrail(g, start, path, path[k])
    ensures OnCycle(g, path[i]) && Reaches(g, start, path[i]) && Reaches(g, path[i], path[k])
  {
    TrailAt(g, start, path, path[k], i);
    TrailReaches(g, start, path, path[k], 0, i);
    TrailReaches(g, start, path, path[k], i, |path|);
    TrailReaches(g, start, path, path[k], i + 1, |path|);
    TrailReaches(g, start, path, path[k], k, i);
    ReachesTransitive(g, g[path[i]], path[k], path[i]);
    ComesBackSoOnCycle(g, path[i]);
  }

  // ------------------------------------------------- sink or cycle, never both

  /** A finite chain cannot go on without repeating: every chain ends, or meets a cycle. */
  lemma {:induction false} ChainEndsOrRepeats(
    g: RedirectMap, x: PostingId, path: seq<PostingId>, current: PostingId)
    requires IsTrail(g, x, path, current)
    ensures (exists s :: IsSink(g, x, s)) || (exists y :: Reaches(g, x, y) && OnCycle(g, y))
    decreases |g.Keys - Members(path)|
  {
    if current !in g {
      TrailReaches(g, x, path, current, 0, |path|);
      TrailStart(g, x, path, current);
      assert IsSink(g, x, current);
    } else if current in path {
      var k :| 0 <= k < |path| && path[k] == current;
      ReturningTrail(g, x, path, k, k);
    } else {
      TrailStep(g, x, path, current);
      ChainEndsOrRepeats(g, x, path + [current], g[current]);
    }
  }

  lemma TrailStart(g: RedirectMap, start: PostingId, path: seq<PostingId>, current: PostingId)
    requires IsTrail(g, start, path, current)
    ensures (path + [current])[0] == start
  {
    if path != [] {
      TrailAt(g, start, path, current, 0);
    }
  }

  /** For every map and posting: the chain has no sink exactly when it runs into a cycle. */
  lemma NoSinkIffMeetsCycle(g: RedirectMap, x: PostingId)
    ensures SinkOf(g, x).None? <==> exists y :: Reaches(g, x, y) && OnCycle(g, y)
  {
    ChainEndsOrRepeats(g, x, [], x);
    if SinkOf(g, x).Some? {
      var s := SinkOf(g, x).value;
      forall y | Reaches(g, x, y) ensures !OnCycle(g, y) {
        SinkFromAnywhere(g, x, y);
        if OnCycle(g, y) {
          CycleReachBack(g, y, s);
        }
      }
    }
  }

  /** Every posting along a chain has that chain's sink. */
  lemma SinkFromAnywhere(g: RedirectMap, x: PostingId, y: PostingId)
    requires SinkOf(g, x).Some? && Reaches(g, x, y)
    ensures SinkOf(g, y) == SinkOf(g, x)
  {
    var s := SinkOf(g, x).value;
    var m: nat :| Walk(g, x, m) == Some(s);
    var k: nat :| Walk(g, x, k) == Some(y);
    if k <= m {
      WalkSplit(g, x, k, m - k);
      assert Walk(g, y, m - k) == Some(s);
    } else {
      WalkPrefixDefined(g, x, m, k);
    }
    assert IsSink(g, y, s);
    SinkUnique(g, y, s, SinkOf(g, y).value);
  }

  /** The graph has no cycle exactly when every chain reaches a sink. */
  lemma AcyclicIffEverySink(g: RedirectMap)
    ensures Acyclic(g) <==> forall x :: SinkOf(g, x).Some?
  {
    if Acyclic(g) {
      forall x ensures SinkOf(g, x).Some? {
        NoSinkIffMeetsCycle(g, x);
      }
    }
    if forall x :: SinkOf(g, x).Some? {
      forall x ensures !OnCycle(g, x) {
        NoSinkIffMeetsCycle(g, x);
        assert Walk(g, x, 0) == Some(x);
        assert SinkOf(g, x).Some?;
      }
    }
  }

  // ------------------------------------------------------- following a chain

  /** `_redirect_target`: the chain's sink, or the report that it runs into a cycle. */
  method RedirectTarget(g: RedirectMap, posting: PostingId)
    returns (target: Option<PostingId>, cycle: bool)
    ensures target == SinkOf(g, posting)
    ensures cycle <==> exists y :: Reaches(g, posting, y) && OnCycle(g, y)
  {
    var seen: set<PostingId> := {};
    var current := posting;
    ghost var path: seq<PostingId> := [];
    while current !in seen
      invariant seen == Members(path)
      invariant IsTrail(g, posting, path, current)
      decreases |g.Keys - seen|
    {
      seen := seen + {current};
      if current !in g {
        TrailReaches(g, posting, path, current, 0, |path|);
        TrailStart(g, posting, path, current);
        assert IsSink(g, posting, current);
        SinkUnique(g, posting, current, SinkOf(g, posting).value);
        NoSinkIffMeetsCycle(g, posting);
        return Some(current), false;
      }
      TrailStep(g, posting, path, current);
      path := path + [current];
      current := g[current];
    }
    ghost var k :| 0 <= k < |path| && path[k] == current;
    ReturningTrail(g, posting, path, k, k);
    NoSinkIffMeetsCycle(g, posting);
    return None, true;
  }

  // ------------------------------------------------------ inserting a redirect

  lemma {:induction false} WalkSurvivesInsert(
    g: RedirectMap, a: PostingId, c: PostingId, x: PostingId, n: nat)
    requires a !in g && Walk(g, x, n).Some?
    ensures Walk(g[a := c], x, n) == Walk(g, x, n)
    decreases n
  {
    if n > 0 {
      WalkSurvivesInsert(g, a, c, g[x], n - 1);
    }
  }

  /**
   Redirecting a sink `a` to another sink `c` moves exactly the postings that ended at
   `a`: they end at `c` afterwards, and every other chain ends where it did before.
   */
  lemma InsertMovesSinks(g: RedirectMap, a: PostingId, c: PostingId, x: PostingId)
    requires a !in g && c !in g && a != c
    ensures SinkOf(g[a := c], x) == if SinkOf(g, x) == Some(a) then Some(c) else SinkOf(g, x)
  {
    var h := g[a := c];
    if SinkOf(g, x).Some? {
      var s := SinkOf(g, x).value;
      var n: nat :| Walk(g, x, n) == Some(s);
      WalkSurvivesInsert(g, a, c, x, n);
      if s == a {
        WalkSplit(h, x, n, 1);
        assert Walk(h, h[a], 0) == Some(c);
        assert Walk(h, x, n + 1) == Some(c);
        assert IsSink(h, x, c);
        SinkUnique(h, x, c, SinkOf(h, x).value);
      } else {
        assert IsSink(h, x, s);
        SinkUnique(h, x, s, SinkOf(h, x).value);
      }
    } else if SinkOf(h, x).Some? {
      var s := SinkOf(h, x).value;
      var n: nat :| Walk(h, x, n) == Some(s);
      EndlessChain(g, x, n + 1);
      WalkPrefixDefined(g, x, n, n + 1);
      WalkSurvivesInsert(g, a, c, x, n);
    }
  }

  lemma {:induction false} EndlessChain(g: RedirectMap, x: PostingId, n: nat)
    requires SinkOf(g, x).None?
    ensures Walk(g, x, n).Some?
    decreases n
  {
    if n > 0 {
      EndlessChain(g, x, n - 1);
      var y := Walk(g, x, n - 1).value;
      assert Reaches(g, x, y);
      assert !IsSink(g, x, y);
      WalkSplit(g, x, n - 1, 1);
      assert Walk(g, g[y], 0) == Some(g[y]);
    }
  }

  /** Such an insert neither makes nor breaks a cycle, whatever cycles exist already. */
  lemma InsertKeepsCycles(g: RedirectMap, a: PostingId, c: PostingId)
    requires a !in g && c !in g && a != c
    ensures Cycles(g[a := c]) == Cycles(g)
    ensures Acyclic(g[a := c]) <==> Acyclic(g)
  {
    var h := g[a := c];
    forall x ensures OnCycle(h, x) <==> OnCycle(g, x) {
      if OnCycle(g, x) {
        var n: nat :| n > 0 && Walk(g, x, n) == Some(x);
        WalkSurvivesInsert(g, a, c, x, n);
      }
      if OnCycle(h, x) && !OnCycle(g, x) {
        InsertCycleWasOld(g, a, c, x);
      }
    }
    forall x | OnCycle(g, x) ensures CycleOf(h, x) == CycleOf(g, x) {
      NoSinkIffMeetsCycle(g, x);
      assert Walk(g, x, 0) == Some(x);
      forall y | y in h.Keys ensures Reaches(h, x, y) <==> Reaches(g, x, y) {
        if Reaches(g, x, y) {
          var n: nat :| Walk(g, x, n) == Some(y);
          WalkSurvivesInsert(g, a, c, x, n);
        }
        if Reaches(h, x, y) {
          var n: nat :| Walk(h, x, n) == Some(y);
          EndlessChain(g, x, n);
          WalkSurvivesInsert(g, a, c, x, n);
        }
      }
      forall y | Reaches(g, x, y) ensures y in g {
        CycleReachBack(g, x, y);
      }
    }
    assert Cycles(h) <= Cycles(g);
    assert Cycles(g) <= Cycles(h);
  }

  lemma InsertCycleWasOld(g: RedirectMap, a: PostingId, c: PostingId, x: PostingId)
    requires a !in g && c !in g && a != c && OnCycle(g[a := c], x)
    ensures OnCycle(g, x)
  {
    var h := g[a := c];
    assert Walk(h, x, 0) == Some(x);
    NoSinkIffMeetsCycle(h, x);
    InsertMovesSinks(g, a, c, x);
    var n: nat :| n > 0 && Walk(h, x, n) == Some(x);
    EndlessChain(g, x, n);
    WalkSurvivesInsert(g, a, c, x, n);
  }

  // -------------------------------------------------------- counting cycles

  /** Chains that start in `S` stay in `S` until they stop. */
  ghost predicate Closed(g: RedirectMap, S: set<PostingId>) {
    S <= g.Keys && forall p :: p in S ==> g[p] in S || g[p] !in g
  }

  lemma {:induction false} ClosedStays(g: RedirectMap, S: set<PostingId>, x: PostingId, n: nat)
    requires Closed(g, S) && x in S && Walk(g, x, n).Some?
    ensures Walk(g, x, n).value in S || Walk(g, x, n).value !in g
    decreases n
  {
    if n > 0 {
      if g[x] in g {
        ClosedStays(g, S, g[x], n - 1);
      }
    }
  }

  /** A posting whose chain leaves for a closed set, or stops, is on no cycle. */
  lemma LeavesSoNotOnCycle(g: RedirectMap, S: set<PostingId>, x: PostingId, y: PostingId)
    requires Closed(g, S) && Reaches(g, x, y) && x !in S && (y in S || y !in g)
    ensures !OnCycle(g, x)
  {
    if OnCycle(g, x) {
      CycleReachBack(g, x, y);
      CycleReachBack(g, x, x) by { assert Walk(g, x, 0) == Some(x); }
      var n: nat :| Walk(g, y, n) == Some(x);
      ClosedStays(g, S, y, n);
    }
  }

  /** Two cycles are the same cycle or share no posting. */
  lemma CyclesDisjoint(g: RedirectMap, x: PostingId, y: PostingId)
    requires OnCycle(g, x) && OnCycle(g, y)
    ensures CycleOf(g, x) == CycleOf(g, y) || CycleOf(g, x) !! CycleOf(g, y)
  {
    if z :| z in CycleOf(g, x) && z in CycleOf(g, y) {
      CycleReachBack(g, x, z);
      CycleReachBack(g, y, z);
      ReachesTransitive(g, x, z, y);
      ReachesTransitive(g, y, z, x);
      forall w ensures Reaches(g, x, w) <==> Reaches(g, y, w) {
        if Reaches(g, x, w) { ReachesTransitive(g, y, x, w); }
        if Reaches(g, y, w) { ReachesTransitive(g, x, y, w); }
      }
    }
  }

  /** The cycles that pass through a posting of `visited`. */
  ghost function CyclesThrough(g: RedirectMap, visited: set<PostingId>): set<set<PostingId>> {
    set x | x in visited && OnCycle(g, x) :: CycleOf(g, x)
  }

  /** A trail that stops, or runs into visited ground, has met no cycle. */
  lemma QuietTrail(
    g: RedirectMap, visited: set<PostingId>, start: PostingId, path: seq<PostingId>,
    current: PostingId)
    requires IsTrail(g, start, path, current) && Closed(g, visited)
    requires Members(path) !! visited
    requires current !in g || current in visited
    ensures CyclesThrough(g, visited + Members(path)) == CyclesThrough(g, visited)
    ensures Closed(g, visited + Members(path))
  {
    forall p | p in Members(path)
      ensures !OnCycle(g, p) && p in g && (g[p] in visited + Members(path) || g[p] !in g)
    {
      var i :| 0 <= i < |path| && path[i] == p;
      TrailAt(g, start, path, current, i);
      TrailReaches(g, start, path, current, i, |path|);
      LeavesSoNotOnCycle(g, visited, p, current);
    }
  }

  /** A trail that comes back to its own posting `path[k]` has found one new cycle. */
  lemma LoopingTrail(
    g: RedirectMap, visited: set<PostingId>, start: PostingId, path: seq<PostingId>, k: nat)
    requires k < |path| && IsTrail(g, start, path, path[k]) && Closed(g, visited)
    requires Members(path) !! visited
    ensures CyclesThrough(g, visited + Members(path))
         == CyclesThrough(g, visited) + {Members(path[k..])}
    ensures Closed(g, visited + Members(path))
  {
    var loop := Members(path[k..]);
    forall p | p in Members(path)
      ensures p in g && g[p] in Members(path)
      ensures OnCycle(g, p) ==> CycleOf(g, p) == loop
    {
      var i :| 0 <= i < |path| && path[i] == p;
      TrailAt(g, start, path, path[k], i);
      if i >= k {
        LoopMember(g, start, path, k, i);
      } else {
        BeforeLoop(g, start, path, k, i);
      }
    }
    LoopMember(g, start, path, k, k);
    var after := visited + Members(path);
    assert path[k] in after;
    assert CyclesThrough(g, after) <= CyclesThrough(g, visited) + {loop};
    assert loop in CyclesThrough(g, after);
  }

  lemma LoopIsClosed(g: RedirectMap, start: PostingId, path: seq<PostingId>, k: nat)
    requires k < |path| && IsTrail(g, start, path, path[k])
    ensures Closed(g, Members(path[k..]))
    ensures forall p :: p in Members(path[k..]) ==> g[p] in g
  {
    forall p | p in Members(path[k..])
      ensures p in g && g[p] in Members(path[k..])
      ensures g[p] in g
    {
      var j :| 0 <= j < |path[k..]| && path[k..][j] == p;
      TrailAt(g, start, path, path[k], k + j);
      assert path[k..][0] == path[k];
      assert k + j + 1 < |path| ==> path[k..][j + 1] == g[p];
      TrailAt(g, start, path, path[k], if k + j + 1 < |path| then k + j + 1 else k);
    }
  }

  lemma LoopMember(g: RedirectMap, start: PostingId, path: seq<PostingId>, k: nat, i: nat)
    requires k <= i < |path| && IsTrail(g, start, path, path[k])
    ensures OnCycle(g, path[i]) && CycleOf(g, path[i]) == Members(path[k..])
  {
    var loop := Members(path[k..]);
    var p := path[i];
    ReturningTrail(g, start, path, k, i);
    LoopIsClosed(g, start, path, k);
    forall q | q in loop ensures Reaches(g, p, q) {
      var j :| 0 <= j < |path[k..]| && path[k..][j] == q;
      TrailReaches(g, start, path, path[k], k, k + j);
      ReachesTransitive(g, p, path[k], q);
    }
    assert p == path[k..][i - k];
    forall q | q in g && Reaches(g, p, q) ensures q in loop {
      ReachedStays(g, loop, p, q);
    }
  }

  lemma ReachedStays(g: RedirectMap, S: set<PostingId>, x: PostingId, y: PostingId)
    requires Closed(g, S) && x in S && Reaches(g, x, y) && y in g
    ensures y in S
  {
    var n: nat :| Walk(g, x, n) == Some(y);
    ClosedStays(g, S, x, n);
  }

  /** Postings before the loop lead into it and are on no cycle themselves. */
  lemma BeforeLoop(g: RedirectMap, start: PostingId, path: seq<PostingId>, k: nat, i: nat)
    requires i < k < |path| && IsTrail(g, start, path, path[k])
    ensures !OnCycle(g, path[i])
  {
    var loop := Members(path[k..]);
    LoopIsClosed(g, start, path, k);
    TrailReaches(g, start, path, path[k], i, k);
    assert path[k..][0] == path[k];
    forall j | k <= j < |path| ensures path[j] != path[i] {
      TrailAt(g, start, path, path[k], j);
      assert path[..j][i] == path[i];
    }
    LeavesSoNotOnCycle(g, loop, path[i], path[k]);
  }

  lemma AllVisited(g: RedirectMap, order: seq<PostingId>, visited: set<PostingId>)
    requires Members(order) == g.Keys && Closed(g, visited)
    requires Members(order) <= visited
    ensures CyclesThrough(g, visited) == Cycles(g)
  {
    assert visited == g.Keys;
  }

  /** The index of every posting of `path`. */
  ghost function PositionsOf(path: seq<PostingId>): map<PostingId, nat> {
    if path == [] then map[]
    else PositionsOf(path[..|path| - 1])[path[|path| - 1] := |path| - 1]
  }

  lemma {:induction false} PositionFound(path: seq<PostingId>, p: PostingId)
    ensures p in PositionsOf(path) <==> p in Members(path)
    ensures p in PositionsOf(path) ==> PositionsOf(path)[p] < |path| && path[PositionsOf(path)[p]] == p
  {
    if path != [] {
      PositionFound(path[..|path| - 1], p);
      assert path == path[..|path| - 1] + [path[|path| - 1]];
    }
  }

  lemma IndexStep(
    g: RedirectMap, start: PostingId, path: seq<PostingId>, current: PostingId)
    requires IsTrail(g, start, path, current)
    requires current in g && current !in PositionsOf(path)
    ensures IsTrail(g, start, path + [current], g[current])
    ensures PositionsOf(path + [current]) == PositionsOf(path)[current := |path|]
    ensures Members(path + [current]) == Members(path) + {current}
    ensures |g.Keys - Members(path + [current])| < |g.Keys - Members(path)|
  {
    PositionFound(path, current);
    TrailStep(g, start, path, current);
    assert (path + [current])[..|path|] == path;
  }

  /** The part of `path` from `current` on. */
  ghost function LoopOf(path: seq<PostingId>, current: PostingId): set<PostingId>
    requires current in PositionsOf(path)
  {
    PositionFound(path, current);
    Members(path[PositionsOf(path)[current]..])
  }

  lemma TrailDone(
    g: RedirectMap, visited: set<PostingId>, start: PostingId, path: seq<PostingId>,
    current: PostingId, looping: bool)
    requires IsTrail(g, start, path, current)
    requires Closed(g, visited) && Members(path) !! visited && start in g
    requires if looping then current in PositionsOf(path) else current !in g || current in visited
    ensures Closed(g, visited + Members(path)) && start in visited + Members(path)
    ensures CyclesThrough(g, visited + Members(path)) == CyclesThrough(g, visited)
            + if looping then {LoopOf(path, current)} else {}
  {
    if looping {
      PositionFound(path, current);
      LoopingTrail(g, visited, start, path, PositionsOf(path)[current]);
    } else {
      QuietTrail(g, visited, start, path, current);
    }
    TrailStart(g, start, path, current);
    assert path != [] ==> path[0] in Members(path);
  }

  lemma NothingVisited(g: RedirectMap, order: seq<PostingId>)
    requires order == []
    ensures Closed(g, {}) && Members(order) == {} && CyclesThrough(g, {}) == {}
  {
  }

  lemma TrailBegins(g: RedirectMap, start: PostingId)
    ensures IsTrail(g, start, [], start) && PositionsOf([]) == map[] && Members([]) == {}
  {
  }

  lemma LoopFrom(path: seq<PostingId>, current: PostingId)
    requires current in PositionsOf(path)
    ensures PositionsOf(path)[current] < |path|
    ensures LoopOf(path, current) == Members(path[PositionsOf(path)[current]..])
  {
    PositionFound(path, current);
  }

  /** `_redirect_cycle_count`: exactly the number of cycles, whatever order starts come in. */
  method RedirectCycleCount(g: RedirectMap, order: seq<PostingId>) returns (count: nat)
    requires Members(order) == g.Keys
    ensures count == |Cycles(g)|
  {
    hide *;
    NothingVisited(g, order[..0]);
    var visited: set<PostingId> := {};
    var cycles: set<set<PostingId>> := {};
    for s := 0 to |order|
      invariant Closed(g, visited)
      invariant Members(order[..s]) <= visited
      invariant cycles == CyclesThrough(g, visited)
    {
      var path: seq<PostingId> := [];
      var positions: map<PostingId, nat> := map[];
      var start := order[s];
      var current := start;
      ghost var before := cycles;
      ghost var looping := false;
      MembersUpTo(order, s);
      TrailBegins(g, start);
      while current in g && current !in visited
        invariant IsTrail(g, start, path, current)
        invariant positions == PositionsOf(path)
        invariant Members(path) !! visited
        invariant !looping && cycles == before
        decreases |g.Keys - Members(path)|
      {
        if current in positions {
          PositionFound(path, current);
          LoopFrom(path, current);
          cycles := cycles + {Members(path[positions[current]..])};
          looping := true;
          break;
        }
        IndexStep(g, start, path, current);
        positions := positions[current := |path|];
        path := path + [current];
        current := g[current];
      }
      TrailDone(g, visited, start, path, current, looping);
      visited := visited + Members(path);
    }
    assert order[..|order|] == order;
    AllVisited(g, order, visited);
    return |cycles|;
  }

  /** The audit's zero is exact: no cycle counted if and only if every chain reaches a sink. */
  lemma ZeroCyclesIffEverySink(g: RedirectMap)
    ensures |Cycles(g)| == 0 <==> forall x :: SinkOf(g, x).Some?
  {
    AcyclicIffEverySink(g);
    if Acyclic(g) {
      assert Cycles(g) == {};
    } else {
      var x :| OnCycle(g, x);
      var n: nat :| n > 0 && Walk(g, x, n) == Some(x);
      assert x in g;
      assert CycleOf(g, x) in Cycles(g);
    }
  }
}
