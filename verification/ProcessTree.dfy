/** Which processes descend from the tracked ones, and which are stale. Source: mcp/index.js. */
module ProcessTree {
  import opened Wrappers

  /** A listed process; `None` stands for a number that is not finite. */
  datatype Process = Process(pid: Option<int>, parent: Option<int>, command: string)

  /** `child` is listed with `parent`, both finite. */
  predicate Edge(ps: seq<Process>, parent: int, child: int) {
    exists i :: 0 <= i < |ps| && ps[i].pid == Some(child) && ps[i].parent == Some(parent)
  }

  /** A walk of one or more parent edges from a root. */
  ghost predicate Walk(ps: seq<Process>, roots: set<int>, path: seq<int>) {
    |path| >= 2 && path[0] in roots && forall i | 0 < i < |path| :: Edge(ps, path[i - 1], path[i])
  }

  ghost predicate Descends(ps: seq<Process>, roots: set<int>, pid: int) {
    exists path :: Walk(ps, roots, path) && path[|path| - 1] == pid
  }

  lemma ChildOfRoot(ps: seq<Process>, roots: set<int>, parent: int, child: int)
    requires parent in roots && Edge(ps, parent, child)
    ensures Descends(ps, roots, child)
  {
    var path := [parent, child];
    assert Walk(ps, roots, path) && path[|path| - 1] == child;
  }

  lemma ChildOfDescendant(ps: seq<Process>, roots: set<int>, parent: int, child: int)
    requires Descends(ps, roots, parent) && Edge(ps, parent, child)
    ensures Descends(ps, roots, child)
  {
    var path :| Walk(ps, roots, path) && path[|path| - 1] == parent;
    var longer := path + [child];
    assert Walk(ps, roots, longer) && longer[|longer| - 1] == child;
  }

  /** Every child of a root or of a member is a member. */
  ghost predicate Closed(ps: seq<Process>, roots: set<int>, members: set<int>) {
    forall parent, child :: (parent in roots || parent in members) && Edge(ps, parent, child) ==> child in members
  }

  lemma {:induction false} WalkStaysInside(ps: seq<Process>, roots: set<int>, members: set<int>, path: seq<int>)
    requires Closed(ps, roots, members) && Walk(ps, roots, path)
    ensures path[|path| - 1] in members
  {
    var n := |path| - 1;
    assert Edge(ps, path[n - 1], path[n]);
    if n > 1 {
      var shorter := path[..n];
      assert Walk(ps, roots, shorter) && shorter[|shorter| - 1] == path[n - 1];
      WalkStaysInside(ps, roots, members, shorter);
    }
  }

  /** A closed set holds every descendant. */
  lemma ClosedHoldsAll(ps: seq<Process>, roots: set<int>, members: set<int>)
    requires Closed(ps, roots, members)
    ensures forall pid | Descends(ps, roots, pid) :: pid in members
  {
    forall pid | Descends(ps, roots, pid) ensures pid in members {
      var path :| Walk(ps, roots, path) && path[|path| - 1] == pid;
      WalkStaysInside(ps, roots, members, path);
    }
  }

  /** The children of each listed parent, in list order, as the map is filled. */
  method ByParent(ps: seq<Process>) returns (byParent: map<int, seq<int>>)
    ensures forall parent, child :: (parent in byParent && child in byParent[parent]) <==> Edge(ps, parent, child)
  {
    byParent := map[];
    for n := 0 to |ps|
      invariant forall parent, child :: (parent in byParent && child in byParent[parent]) <==> Edge(ps[..n], parent, child)
    {
      var p := ps[n];
      EdgeOneMore(ps, n);
      if p.pid.Some? && p.parent.Some? {
        var siblings := if p.parent.value in byParent then byParent[p.parent.value] else [];
        byParent := byParent[p.parent.value := siblings + [p.pid.value]];
      }
    }
    assert ps[..|ps|] == ps;
  }

  lemma EdgeOneMore(ps: seq<Process>, n: nat)
    requires n < |ps|
    ensures forall parent, child :: Edge(ps[..n + 1], parent, child) <==>
              Edge(ps[..n], parent, child) || (ps[n].pid == Some(child) && ps[n].parent == Some(parent))
  {
    forall parent, child
      ensures Edge(ps[..n + 1], parent, child) <==>
                Edge(ps[..n], parent, child) || (ps[n].pid == Some(child) && ps[n].parent == Some(parent))
    {
      assert ps[..n + 1][n] == ps[n];
      assert forall i | 0 <= i < n :: ps[..n + 1][i] == ps[..n][i];
    }
  }

  function Pids(ps: seq<Process>): set<int> {
    set i | 0 <= i < |ps| && ps[i].pid.Some? :: ps[i].pid.value
  }

  lemma EdgeIsListed(ps: seq<Process>, parent: int, child: int)
    requires Edge(ps, parent, child)
    ensures child in Pids(ps)
  {
    var i :| 0 <= i < |ps| && ps[i].pid == Some(child) && ps[i].parent == Some(parent);
    assert ps[i].pid.value in Pids(ps);
  }

  /** A worked-off process: its children are all members. */
  ghost predicate Expanded(ps: seq<Process>, members: set<int>, pid: int) {
    forall child | Edge(ps, pid, child) :: child in members
  }

  /** The children of one parent, pushed unless they are members already. */
  method Expand(ghost ps: seq<Process>, ghost roots: set<int>, children: seq<int>, ghost parent: int, members: set<int>, stack: seq<int>)
    returns (found: set<int>, pushed: seq<int>)
    requires forall child :: child in children <==> Edge(ps, parent, child)
    requires parent in roots || Descends(ps, roots, parent)
    requires members <= Pids(ps) && forall m | m in members :: Descends(ps, roots, m)
    ensures members <= found && stack <= pushed && Expanded(ps, found, parent)
    ensures found <= Pids(ps) && forall m | m in found :: Descends(ps, roots, m)
    ensures forall m | m in found && m !in members :: m in pushed
    ensures forall m | m in pushed :: m in stack || m in found
    ensures |pushed| - |stack| == |found| - |members|
  {
    found, pushed := members, stack;
    for n := 0 to |children|
      invariant members <= found && stack <= pushed
      invariant forall child | child in children[..n] :: child in found
      invariant found <= Pids(ps) && forall m | m in found :: Descends(ps, roots, m)
      invariant forall m | m in found && m !in members :: m in pushed
      invariant forall m | m in pushed :: m in stack || m in found
      invariant |pushed| - |stack| == |found| - |members|
    {
      var child := children[n];
      if child !in found {
        assert child in children;
        EdgeIsListed(ps, parent, child);
        if parent in roots {
          ChildOfRoot(ps, roots, parent, child);
        } else {
          ChildOfDescendant(ps, roots, parent, child);
        }
        found, pushed := found + {child}, pushed + [child];
      }
    }
  }

  /** The worklist ends on every process list, cyclic parent links included, with exactly the
      processes one or more parent edges below a root. */
  method DescendantPids(ps: seq<Process>, roots: seq<int>) returns (descendants: set<int>)
    ensures forall pid :: pid in descendants <==> Descends(ps, (set r | r in roots), pid)
  {
    ghost var rootSet := set r | r in roots;
    hide Pids, Edge, Walk;
    var byParent := ByParent(ps);
    descendants := {};
    var stack := roots;
    while stack != []
      invariant descendants <= Pids(ps) && forall m | m in descendants :: Descends(ps, rootSet, m)
      invariant forall m | m in stack :: m in rootSet || m in descendants
      invariant forall m | (m in rootSet || m in descendants) && m !in stack :: Expanded(ps, descendants, m)
      decreases |Pids(ps) - descendants|, |stack|
    {
      var n := |stack| - 1;
      var parent := stack[n];
      var rest := stack[..n];
      var children := if parent in byParent then byParent[parent] else [];
      assert forall child :: child in children <==> Edge(ps, parent, child);
      ghost var before := descendants;
      assert stack == rest + [parent];
      descendants, stack := Expand(ps, rootSet, children, parent, descendants, rest);
      Shrinks(Pids(ps), before, descendants);
      assert forall m | m in rest :: m in stack;
      forall m | (m in rootSet || m in descendants) && m !in stack ensures Expanded(ps, descendants, m) {
        if m != parent {
          assert m !in rest + [parent];
        }
      }
    }
    assert Closed(ps, rootSet, descendants);
    ClosedHoldsAll(ps, rootSet, descendants);
  }

  lemma Shrinks(all: set<int>, before: set<int>, after: set<int>)
    requires before <= after <= all
    ensures |all - after| == |all| - |after| && |all - before| == |all| - |before|
    ensures |before| <= |after|
  {
    assert |after - before| >= 0;
    assert after == before + (after - before);
  }

  // ----------------------------------------------------------------- stale ----

  predicate StandsAt(text: string, part: string, i: int) {
    0 <= i <= |text| - |part| && text[i..i + |part|] == part
  }

  predicate Includes(text: string, part: string) {
    exists i | 0 <= i <= |text| - |part| :: StandsAt(text, part, i)
  }

  predicate UsesDirectory(normalize: string -> string, command: string, flag: string, dir: string) {
    Includes(normalize(command), flag) && Includes(normalize(command), normalize(dir))
  }

  /** The filters of `staleProfileProcesses`, in order. */
  method StaleProcesses(ps: seq<Process>, tracked: set<int>, roots: seq<int>, normalize: string -> string, flag: string, dir: string)
    returns (stale: seq<Process>)
    requires tracked == (set r | r in roots)
    ensures forall p :: p in stale <==>
              && p in ps && p.pid.Some? && p.pid.value !in tracked && !Descends(ps, tracked, p.pid.value)
              && UsesDirectory(normalize, p.command, flag, dir)
  {
    var descendants := DescendantPids(ps, roots);
    stale := [];
    for n := 0 to |ps|
      invariant forall p :: p in stale <==>
                  && p in ps[..n] && p.pid.Some? && p.pid.value !in tracked && p.pid.value !in descendants
                  && UsesDirectory(normalize, p.command, flag, dir)
    {
      var p := ps[n];
      assert ps[..n + 1] == ps[..n] + [p];
      if p.pid.Some? && p.pid.value !in tracked && p.pid.value !in descendants && UsesDirectory(normalize, p.command, flag, dir) {
        stale := stale + [p];
      }
    }
    assert ps[..|ps|] == ps;
  }
}
