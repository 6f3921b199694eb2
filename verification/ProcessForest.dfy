/** The process tree below the roots of a snapshot.  Following parent pids may go round
    in a cycle; starting from a root it cannot, and everything below a root is met
    exactly once. */
module ProcessForest {

  datatype Process = Process(pid: int, ppid: int, name: string)

  /** The processes recorded under a parent, in the order they were read. */
  function Children(ps: seq<Process>, pid: int): seq<Process> {
    if ps == [] then []
    else Children(ps[..|ps| - 1], pid) + (if ps[|ps| - 1].ppid == pid then [ps[|ps| - 1]] else [])
  }

  predicate Distinct(ps: seq<Process>) {
    && (forall i :: 0 <= i < |ps| ==> ps[i].pid > 0)
    && (forall i, j :: 0 <= i < j < |ps| ==> ps[i].pid != ps[j].pid)
  }

  predicate Linked(ps: seq<Process>, parent: int, pid: int) {
    exists i :: 0 <= i < |ps| && ps[i].pid == pid && ps[i].ppid == parent
  }

  /** The pids met on the way down from a root; a root is a process whose ppid is 0. */
  predicate Chain(ps: seq<Process>, path: seq<int>) {
    && path != []
    && Linked(ps, 0, path[0])
    && forall k :: 0 < k < |path| ==> Linked(ps, path[k - 1], path[k])
  }

  function Last(path: seq<int>): int
    requires path != []
  {
    path[|path| - 1]
  }

  /** A process has one parent, so the way up from it is determined. */
  lemma OneParent(ps: seq<Process>, a: int, b: int, pid: int)
    requires Distinct(ps) && Linked(ps, a, pid) && Linked(ps, b, pid)
    ensures a == b && pid > 0
  {
  }

  lemma {:induction false} ChainIsUnique(ps: seq<Process>, p: seq<int>, q: seq<int>)
    requires Distinct(ps) && Chain(ps, p) && Chain(ps, q) && Last(p) == Last(q)
    ensures p == q
  {
    if |p| == 1 && |q| == 1 {
    } else if |p| == 1 {
      OneParent(ps, 0, q[|q| - 2], Last(p));
      ChainPositive(ps, q, |q| - 2);
    } else if |q| == 1 {
      OneParent(ps, 0, p[|p| - 2], Last(p));
      ChainPositive(ps, p, |p| - 2);
    } else {
      OneParent(ps, p[|p| - 2], q[|q| - 2], Last(p));
      ChainIsUnique(ps, p[..|p| - 1], q[..|q| - 1]);
      assert p == p[..|p| - 1] + [Last(p)] && q == q[..|q| - 1] + [Last(q)];
    }
  }

  lemma ChainPositive(ps: seq<Process>, path: seq<int>, k: nat)
    requires Distinct(ps) && Chain(ps, path) && k < |path|
    ensures path[k] > 0
  {
    if k > 0 {
      assert Linked(ps, path[k - 1], path[k]);
    }
  }

  /** No pid comes twice on the way down from a root. */
  lemma ChainHasNoCycle(ps: seq<Process>, path: seq<int>, i: nat, j: nat)
    requires Distinct(ps) && Chain(ps, path) && i < j < |path|
    ensures path[i] != path[j]
  {
    if path[i] == path[j] {
      ChainIsUnique(ps, path[..i + 1], path[..j + 1]);
    }
  }

  /** Whatever cycles the snapshot has, none of them can be entered from a root. */
  lemma CycleIsUnreachable(ps: seq<Process>, cycle: seq<int>, path: seq<int>)
    requires Distinct(ps) && |cycle| >= 2 && cycle[0] == Last(cycle)
    requires forall k :: 0 < k < |cycle| ==> Linked(ps, cycle[k - 1], cycle[k])
    requires Chain(ps, path)
    ensures Last(path) != cycle[0]
  {
    if Last(path) == cycle[0] {
      var round := path + cycle[1..];
      forall k | 0 < k < |round| ensures Linked(ps, round[k - 1], round[k]) {
        if k < |path| {
          assert Linked(ps, path[k - 1], path[k]);
        } else {
          assert Linked(ps, cycle[k - |path|], cycle[k - |path| + 1]);
        }
      }
      ChainHasNoCycle(ps, round, |path| - 1, |round| - 1);
    }
  }

  function Pids(ps: seq<Process>): set<int> {
    set i | 0 <= i < |ps| :: ps[i].pid
  }

  function OnPath(path: seq<int>): set<int> {
    set k | 0 <= k < |path| :: path[k]
  }

  /** How many processes the way down has not met yet: what makes printTree end. */
  function Unmet(ps: seq<Process>, path: seq<int>): nat {
    |Pids(ps) - OnPath(path)|
  }

  lemma {:induction false} ChildrenAre(ps: seq<Process>, pid: int, k: nat)
    requires k < |Children(ps, pid)|
    ensures Children(ps, pid)[k] in ps && Children(ps, pid)[k].ppid == pid
  {
    var init := ps[..|ps| - 1];
    if k < |Children(init, pid)| {
      ChildrenAre(init, pid, k);
    }
  }

  lemma {:induction false} ChildIsListed(ps: seq<Process>, c: Process) returns (k: nat)
    requires c in ps
    ensures k < |Children(ps, c.ppid)| && Children(ps, c.ppid)[k] == c
  {
    var init := ps[..|ps| - 1];
    if c in init {
      k := ChildIsListed(init, c);
    } else {
      assert ps[|ps| - 1] == c;
      k := |Children(init, c.ppid)|;
    }
  }

  lemma {:induction false} ChildrenDiffer(ps: seq<Process>, pid: int, j: nat, k: nat)
    requires Distinct(ps) && j < k < |Children(ps, pid)|
    ensures Children(ps, pid)[j].pid != Children(ps, pid)[k].pid
  {
    var init := ps[..|ps| - 1];
    if k < |Children(init, pid)| {
      ChildrenDiffer(init, pid, j, k);
    } else {
      ChildrenAre(init, pid, j);
    }
  }

  lemma ChainGrows(ps: seq<Process>, path: seq<int>, c: Process)
    requires Chain(ps, path) && c in ps && c.ppid == Last(path)
    ensures Chain(ps, path + [c.pid])
  {
    var next := path + [c.pid];
    var i :| 0 <= i < |ps| && ps[i] == c;
    forall m | 0 < m < |next| ensures Linked(ps, next[m - 1], next[m]) {
      if m < |path| {
        assert Linked(ps, path[m - 1], path[m]);
      }
    }
  }

  lemma UnmetShrinks(ps: seq<Process>, path: seq<int>, pid: int)
    requires pid in Pids(ps) && pid !in OnPath(path)
    ensures Unmet(ps, path + [pid]) < Unmet(ps, path)
  {
    var next := path + [pid];
    assert OnPath(next) == OnPath(path) + {pid} by {
      assert forall m :: 0 <= m < |path| ==> next[m] == path[m];
      assert next[|path|] == pid;
    }
    assert Pids(ps) - OnPath(next) == (Pids(ps) - OnPath(path)) - {pid};
  }

  lemma ChainExtends(ps: seq<Process>, path: seq<int>, k: nat)
    requires Distinct(ps) && Chain(ps, path) && k < |Children(ps, Last(path))|
    ensures var next := path + [Children(ps, Last(path))[k].pid];
            Chain(ps, next) && Unmet(ps, next) < Unmet(ps, path)
  {
    var c := Children(ps, Last(path))[k];
    var next := path + [c.pid];
    ChildrenAre(ps, Last(path), k);
    ChainGrows(ps, path, c);
    if c.pid in OnPath(path) {
      var m :| 0 <= m < |path| && path[m] == c.pid;
      ChainHasNoCycle(ps, next, m, |path|);
    }
    UnmetShrinks(ps, path, c.pid);
  }

  datatype Tree = Node(proc: Process, kids: Forest)
  datatype Forest = Empty | Trees(first: Tree, rest: Forest)

  /** What printTree walks: the children of the last pid of the path from number i on,
      each with everything below it. */
  function Below(ps: seq<Process>, path: seq<int>, i: nat): Forest
    requires Distinct(ps) && Chain(ps, path) && i <= |Children(ps, Last(path))|
    decreases Unmet(ps, path), |Children(ps, Last(path))| - i
  {
    var cs := Children(ps, Last(path));
    if i == |cs| then Empty
    else
      ChainExtends(ps, path, i);
      Trees(Node(cs[i], Below(ps, path + [cs[i].pid], 0)), Below(ps, path, i + 1))
  }

  /** The order of printing. */
  function Preorder(f: Forest): seq<Process> {
    match f
    case Empty => []
    case Trees(Node(p, kids), rest) => [p] + Preorder(kids) + Preorder(rest)
  }

  /** The order of freeing. */
  function Postorder(f: Forest): seq<Process> {
    match f
    case Empty => []
    case Trees(Node(p, kids), rest) => Postorder(kids) + [p] + Postorder(rest)
  }

  lemma PreorderBelow(ps: seq<Process>, path: seq<int>, i: nat)
    requires Distinct(ps) && Chain(ps, path) && i < |Children(ps, Last(path))|
    ensures var c := Children(ps, Last(path))[i];
            && Chain(ps, path + [c.pid]) && Unmet(ps, path + [c.pid]) < Unmet(ps, path)
            && Preorder(Below(ps, path, i))
               == [c] + Preorder(Below(ps, path + [c.pid], 0)) + Preorder(Below(ps, path, i + 1))
  {
    ChainExtends(ps, path, i);
  }

  lemma InBelow(ps: seq<Process>, path: seq<int>, i: nat, x: Process)
    requires Distinct(ps) && Chain(ps, path) && i < |Children(ps, Last(path))|
    requires Chain(ps, path + [Children(ps, Last(path))[i].pid])
    ensures var c := Children(ps, Last(path))[i];
            x in Preorder(Below(ps, path, i)) <==>
              x == c || x in Preorder(Below(ps, path + [c.pid], 0)) || x in Preorder(Below(ps, path, i + 1))
  {
    PreorderBelow(ps, path, i);
  }

  lemma FreedIsPrinted(f: Forest)
    ensures multiset(Postorder(f)) == multiset(Preorder(f))
  {
  }

  lemma InPostorder(f: Forest, q: Process)
    ensures q in Postorder(f) <==> q in Preorder(f)
  {
    FreedIsPrinted(f);
    assert q in Postorder(f) <==> q in multiset(Postorder(f));
    assert q in Preorder(f) <==> q in multiset(Preorder(f));
  }

  lemma {:induction false} PrintedWhere(ps: seq<Process>, path: seq<int>, i: nat, q: Process)
    requires Distinct(ps) && Chain(ps, path) && i <= |Children(ps, Last(path))|
    requires q in Preorder(Below(ps, path, i))
    ensures i < |Children(ps, Last(path))|
    ensures var c := Children(ps, Last(path))[i];
            && c in ps && Chain(ps, path + [c.pid]) && Unmet(ps, path + [c.pid]) < Unmet(ps, path)
            && (q == c || q in Preorder(Below(ps, path + [c.pid], 0)) || q in Preorder(Below(ps, path, i + 1)))
  {
    PreorderBelow(ps, path, i);
    ChildrenAre(ps, Last(path), i);
  }

  lemma {:induction false} BeginsWith(chain: seq<int>, path: seq<int>, pid: int)
    requires |chain| > |path| && chain[..|path| + 1] == path + [pid]
    ensures chain[..|path|] == path && chain[|path|] == pid
  {
    assert chain[..|path|] == chain[..|path| + 1][..|path|];
    assert chain[|path|] == chain[..|path| + 1][|path|];
  }

  /** Every printed process lies on a chain that goes on from the path through one of
      the children still to come. */
  lemma {:induction false} PrintedHasChain(ps: seq<Process>, path: seq<int>, i: nat, q: Process)
    returns (k: nat, chain: seq<int>)
    requires Distinct(ps) && Chain(ps, path) && i <= |Children(ps, Last(path))|
    requires q in Preorder(Below(ps, path, i))
    ensures i <= k < |Children(ps, Last(path))| && q in ps
    ensures Chain(ps, chain) && Last(chain) == q.pid && |chain| > |path|
    ensures chain[..|path|] == path && chain[|path|] == Children(ps, Last(path))[k].pid
    decreases Unmet(ps, path), |Children(ps, Last(path))| - i
  {
    PrintedWhere(ps, path, i, q);
    var c := Children(ps, Last(path))[i];
    var next := path + [c.pid];
    if q == c {
      k, chain := i, next;
    } else if q in Preorder(Below(ps, next, 0)) {
      k, chain := PrintedHasChain(ps, next, 0, q);
      BeginsWith(chain, path, c.pid);
      k := i;
    } else {
      k, chain := PrintedHasChain(ps, path, i + 1, q);
    }
  }

  ghost predicate Within(a: seq<Process>, b: seq<Process>) {
    forall x :: x in a ==> x in b
  }

  lemma {:induction false} WithinAll(f: nat -> seq<Process>, k: nat)
    requires forall i :: 0 <= i < k ==> Within(f(i + 1), f(i))
    ensures Within(f(k), f(0))
  {
    if k > 0 {
      WithinAll(f, k - 1);
      assert Within(f(k - 1 + 1), f(k - 1));
    }
  }

  lemma {:induction false} WithinTail(p: Process, a: seq<Process>, b: seq<Process>)
    ensures Within(b, [p] + a + b)
  {
  }

  lemma {:induction false} LaterChild(ps: seq<Process>, path: seq<int>, i: nat)
    requires Distinct(ps) && Chain(ps, path) && i < |Children(ps, Last(path))|
    ensures Within(Preorder(Below(ps, path, i + 1)), Preorder(Below(ps, path, i)))
  {
    PreorderBelow(ps, path, i);
    var c := Children(ps, Last(path))[i];
    WithinTail(c, Preorder(Below(ps, path + [c.pid], 0)), Preorder(Below(ps, path, i + 1)));
  }

  /** What is printed from a later child on is printed from the first child on. */
  lemma {:induction false} LaterChildren(ps: seq<Process>, path: seq<int>, k: nat)
    requires Distinct(ps) && Chain(ps, path) && k <= |Children(ps, Last(path))|
    ensures Within(Preorder(Below(ps, path, k)), Preorder(Below(ps, path, 0)))
  {
    var n := |Children(ps, Last(path))|;
    var f := (i: nat) => if i <= n then Preorder(Below(ps, path, i)) else [];
    forall i | 0 <= i < k ensures Within(f(i + 1), f(i)) {
      LaterChild(ps, path, i);
    }
    WithinAll(f, k);
  }

  /** Each child is printed, with everything below it. */
  lemma ChildPrinted(ps: seq<Process>, path: seq<int>, k: nat, x: Process)
    requires Distinct(ps) && Chain(ps, path) && k < |Children(ps, Last(path))|
    requires Chain(ps, path + [Children(ps, Last(path))[k].pid])
    requires x == Children(ps, Last(path))[k] || x in Preorder(Below(ps, path + [Children(ps, Last(path))[k].pid], 0))
    ensures x in Preorder(Below(ps, path, 0))
  {
    LaterChildren(ps, path, k);
    InBelow(ps, path, k, x);
  }

  /** Whatever lies on a chain is printed below each earlier point of the chain. */
  lemma {:induction false} ChainIsPrinted(ps: seq<Process>, chain: seq<int>, n: nat, q: Process)
    requires Distinct(ps) && Chain(ps, chain) && 1 <= n < |chain| && q in ps && q.pid == Last(chain)
    requires Chain(ps, chain[..n])
    ensures q in Preorder(Below(ps, chain[..n], 0))
    decreases |chain| - n
  {
    var path := chain[..n];
    assert Linked(ps, chain[n - 1], chain[n]);
    var i :| 0 <= i < |ps| && ps[i].pid == chain[n] && ps[i].ppid == chain[n - 1];
    var k := ChildIsListed(ps, ps[i]);
    ChainGrows(ps, path, ps[i]);
    assert chain[..n + 1] == path + [ps[i].pid];
    if n == |chain| - 1 {
      var j :| 0 <= j < |ps| && ps[j] == q;
    } else {
      ChainIsPrinted(ps, chain, n + 1, q);
    }
    ChildPrinted(ps, path, k, q);
  }

  /** q is a proper descendant of the process with this pid: a line of parents leads up
      from q to it. */
  ghost predicate Descends(ps: seq<Process>, root: int, q: Process) {
    exists line :: DescentLine(ps, root, line) && line[|line| - 1] == q
  }

  predicate DescentLine(ps: seq<Process>, root: int, line: seq<Process>) {
    && line != [] && line[0].ppid == root
    && (forall k :: 0 <= k < |line| ==> line[k] in ps)
    && forall k :: 0 < k < |line| ==> line[k].ppid == line[k - 1].pid
  }

  lemma {:induction false} LineGivesChain(ps: seq<Process>, root: int, line: seq<Process>) returns (chain: seq<int>)
    requires Chain(ps, [root]) && DescentLine(ps, root, line)
    ensures Chain(ps, chain) && |chain| >= 2 && chain[0] == root && Last(chain) == line[|line| - 1].pid
  {
    var n := |line| - 1;
    if n == 0 {
      ChainGrows(ps, [root], line[0]);
      chain := [root] + [line[0].pid];
    } else {
      var up := LineGivesChain(ps, root, line[..n]);
      ChainGrows(ps, up, line[n]);
      chain := up + [line[n].pid];
    }
  }

  lemma {:induction false} ChainGivesLine(ps: seq<Process>, chain: seq<int>, q: Process) returns (line: seq<Process>)
    requires Distinct(ps) && Chain(ps, chain) && |chain| >= 2 && q in ps && q.pid == Last(chain)
    ensures DescentLine(ps, chain[0], line) && line[|line| - 1] == q
    decreases |chain|
  {
    var n := |chain| - 1;
    assert Linked(ps, chain[n - 1], chain[n]);
    var i :| 0 <= i < |ps| && ps[i].pid == chain[n] && ps[i].ppid == chain[n - 1];
    var j :| 0 <= j < |ps| && ps[j] == q;
    if n == 1 {
      line := [q];
    } else {
      assert Linked(ps, chain[n - 2], chain[n - 1]);
      var m :| 0 <= m < |ps| && ps[m].pid == chain[n - 1] && ps[m].ppid == chain[n - 2];
      var up := ChainGivesLine(ps, chain[..n], ps[m]);
      line := up + [q];
    }
  }

  /** printTree started at a root prints exactly the proper descendants of the root. */
  lemma PrintsDescendants(ps: seq<Process>, root: int, q: Process)
    requires Distinct(ps) && Chain(ps, [root])
    ensures q in Preorder(Below(ps, [root], 0)) <==> Descends(ps, root, q)
  {
    if q in Preorder(Below(ps, [root], 0)) {
      var k, chain := PrintedHasChain(ps, [root], 0, q);
      assert chain[..1] == [root];
      var line := ChainGivesLine(ps, chain, q);
    }
    if line :| DescentLine(ps, root, line) && line[|line| - 1] == q {
      var chain := LineGivesChain(ps, root, line);
      assert chain[..1] == [root];
      ChainIsPrinted(ps, chain, 1, q);
    }
  }

  predicate NoRepeats(qs: seq<Process>) {
    forall i, j :: 0 <= i < j < |qs| ==> qs[i] != qs[j]
  }

  /** No process is printed, or freed, twice. */
  lemma {:induction false} PrintsOnce(ps: seq<Process>, path: seq<int>, i: nat)
    requires Distinct(ps) && Chain(ps, path) && i <= |Children(ps, Last(path))|
    ensures NoRepeats(Preorder(Below(ps, path, i)))
    decreases Unmet(ps, path), |Children(ps, Last(path))| - i
  {
    var cs := Children(ps, Last(path));
    if i < |cs| {
      PreorderBelow(ps, path, i);
      var next := path + [cs[i].pid];
      PrintsOnce(ps, next, 0);
      PrintsOnce(ps, path, i + 1);
      forall q | q in Preorder(Below(ps, next, 0)) ensures q != cs[i] && q !in Preorder(Below(ps, path, i + 1)) {
        SubtreesAreApart(ps, path, i, q);
      }
      if cs[i] in Preorder(Below(ps, path, i + 1)) {
        var k, chain := PrintedHasChain(ps, path, i + 1, cs[i]);
        ChainIsUnique(ps, chain, next);
        ChildrenDiffer(ps, Last(path), i, k);
      }
      NoRepeatsJoin(cs[i], Preorder(Below(ps, next, 0)), Preorder(Below(ps, path, i + 1)));
    }
  }

  lemma NoRepeatsJoin(p: Process, a: seq<Process>, b: seq<Process>)
    requires NoRepeats(a) && NoRepeats(b) && p !in a && p !in b && forall q :: q in a ==> q !in b
    ensures NoRepeats([p] + a + b)
  {
    var s := [p] + a + b;
    forall i, j | 0 <= i < j < |s| ensures s[i] != s[j] {
      if i == 0 {
        assert s[j] in a || s[j] in b;
      } else if i <= |a| < j {
        assert s[i] == a[i - 1] && s[j] == b[j - 1 - |a|];
        assert s[i] in a && s[j] in b;
      }
    }
  }

  lemma SubtreesAreApart(ps: seq<Process>, path: seq<int>, i: nat, q: Process)
    requires Distinct(ps) && Chain(ps, path) && i < |Children(ps, Last(path))|
    requires Chain(ps, path + [Children(ps, Last(path))[i].pid])
    requires q in Preorder(Below(ps, path + [Children(ps, Last(path))[i].pid], 0))
    ensures q != Children(ps, Last(path))[i] && q !in Preorder(Below(ps, path, i + 1))
  {
    var cs := Children(ps, Last(path));
    var next := path + [cs[i].pid];
    var k, chain := PrintedHasChain(ps, next, 0, q);
    assert chain[|path|] == chain[..|next|][|path|] == cs[i].pid;
    if q == cs[i] {
      ChainIsUnique(ps, chain, next);
    }
    if q in Preorder(Below(ps, path, i + 1)) {
      var m, other := PrintedHasChain(ps, path, i + 1, q);
      ChainIsUnique(ps, chain, other);
      ChildrenDiffer(ps, Last(path), i, m);
    }
  }

  /** The trees of two different roots have no process in common. */
  lemma RootsAreApart(ps: seq<Process>, r1: int, r2: int, q: Process)
    requires Distinct(ps) && Chain(ps, [r1]) && Chain(ps, [r2]) && r1 != r2
    requires q in Preorder(Below(ps, [r1], 0))
    ensures q !in Preorder(Below(ps, [r2], 0)) && q.pid != r2
  {
    var k, chain := PrintedHasChain(ps, [r1], 0, q);
    assert chain[..1] == [r1];
    if q.pid == r2 {
      ChainIsUnique(ps, chain, [r2]);
    }
    if q in Preorder(Below(ps, [r2], 0)) {
      var m, other := PrintedHasChain(ps, [r2], 0, q);
      assert other[..1] == [r2];
      ChainIsUnique(ps, chain, other);
    }
  }

  // The order of printing and of freeing.

  lemma {:induction false} ChainUp(ps: seq<Process>, chain: seq<int>, q: Process)
    requires Distinct(ps) && Chain(ps, chain) && |chain| >= 2 && q in ps && q.pid == Last(chain)
    ensures Chain(ps, chain[..|chain| - 1]) && Last(chain[..|chain| - 1]) == q.ppid
  {
    var n := |chain| - 1;
    assert Linked(ps, chain[n - 1], chain[n]);
    var i :| 0 <= i < |ps| && ps[i].pid == chain[n] && ps[i].ppid == chain[n - 1];
    var j :| 0 <= j < |ps| && ps[j] == q;
  }

  /** The parent of what is printed below a process is that process, or is printed below it
      as well; it is none of the siblings, and nothing printed below them. */
  lemma {:induction false} ParentIsNear(ps: seq<Process>, path: seq<int>, i: nat, x: Process, y: Process)
    requires Distinct(ps) && Chain(ps, path) && i < |Children(ps, Last(path))|
    requires Chain(ps, path + [Children(ps, Last(path))[i].pid])
    requires var c := Children(ps, Last(path))[i];
             x == c || x in Preorder(Below(ps, path + [c.pid], 0))
    requires y in Preorder(Below(ps, path, i + 1))
    ensures x.ppid != y.pid && y.ppid != x.pid
  {
    var cs := Children(ps, Last(path));
    var next := path + [cs[i].pid];
    ChildrenAre(ps, Last(path), i);
    var m, other := PrintedHasChain(ps, path, i + 1, y);
    ChildrenDiffer(ps, Last(path), i, m);
    var chain := next;
    if x != cs[i] {
      var k;
      k, chain := PrintedHasChain(ps, next, 0, x);
      BeginsWith(chain, path, cs[i].pid);
    }
    ChainUp(ps, chain, x);
    ChainUp(ps, other, y);
    if x.ppid == y.pid {
      ChainIsUnique(ps, chain[..|chain| - 1], other);
    }
    if y.ppid == x.pid {
      ChainIsUnique(ps, other[..|other| - 1], chain);
    }
  }

  /** No process below a child is the child's own parent. */
  lemma {:induction false} NoneBelowIsAbove(ps: seq<Process>, path: seq<int>, i: nat, x: Process)
    requires Distinct(ps) && Chain(ps, path) && i < |Children(ps, Last(path))|
    requires Chain(ps, path + [Children(ps, Last(path))[i].pid])
    requires x in Preorder(Below(ps, path + [Children(ps, Last(path))[i].pid], 0))
    ensures Children(ps, Last(path))[i].ppid != x.pid
  {
    var next := path + [Children(ps, Last(path))[i].pid];
    ChildrenAre(ps, Last(path), i);
    var k, chain := PrintedHasChain(ps, next, 0, x);
    if Last(path) == x.pid {
      ChainIsUnique(ps, chain, path);
    }
  }

  /** No process comes before its parent. */
  predicate ParentsFirst(qs: seq<Process>) {
    forall a, b :: 0 <= a < b < |qs| ==> qs[a].ppid != qs[b].pid
  }

  /** No process comes after its parent. */
  predicate ParentsLast(qs: seq<Process>) {
    forall a, b :: 0 <= a < b < |qs| ==> qs[a].pid != qs[b].ppid
  }

  lemma {:induction false} JoinParentsFirst(c: Process, a: seq<Process>, b: seq<Process>)
    requires ParentsFirst(a) && ParentsFirst(b)
    requires forall x :: x in a ==> c.ppid != x.pid
    requires forall x, y :: (x == c || x in a) && y in b ==> x.ppid != y.pid
    ensures ParentsFirst([c] + a + b)
  {
    var s := [c] + a + b;
    forall i, j | 0 <= i < j < |s| ensures s[i].ppid != s[j].pid {
      if j > |a| {
        assert s[j] == b[j - 1 - |a|] && s[j] in b;
        if i > |a| {
          assert s[i] == b[i - 1 - |a|];
        } else {
          assert s[i] == c || s[i] in a;
        }
      } else if i > 0 {
        assert s[i] == a[i - 1] && s[j] == a[j - 1];
      } else {
        assert s[j] in a;
      }
    }
  }

  lemma {:induction false} JoinParentsLast(c: Process, a: seq<Process>, b: seq<Process>)
    requires ParentsLast(a) && ParentsLast(b)
    requires forall x :: x in a ==> c.ppid != x.pid
    requires forall x, y :: (x == c || x in a) && y in b ==> y.ppid != x.pid
    ensures ParentsLast(a + [c] + b)
  {
    var s := a + [c] + b;
    forall i, j | 0 <= i < j < |s| ensures s[i].pid != s[j].ppid {
      if j > |a| {
        assert s[j] == b[j - 1 - |a|] && s[j] in b;
        if i > |a| {
          assert s[i] == b[i - 1 - |a|];
        } else {
          assert s[i] == c || s[i] in a;
        }
      } else if j < |a| {
        assert s[i] == a[i] && s[j] == a[j];
      } else {
        assert s[j] == c && s[i] in a;
      }
    }
  }

  /** Whatever is printed comes behind its parent, and whatever is freed comes before its
      parent: no process is freed before all below it are. */
  lemma {:induction false} PrintedDownFreedUp(ps: seq<Process>, path: seq<int>, i: nat)
    requires Distinct(ps) && Chain(ps, path) && i <= |Children(ps, Last(path))|
    ensures ParentsFirst(Preorder(Below(ps, path, i))) && ParentsLast(Postorder(Below(ps, path, i)))
    decreases Unmet(ps, path), |Children(ps, Last(path))| - i
  {
    var cs := Children(ps, Last(path));
    if i < |cs| {
      var c := cs[i];
      var next := path + [c.pid];
      PreorderBelow(ps, path, i);
      PrintedDownFreedUp(ps, next, 0);
      PrintedDownFreedUp(ps, path, i + 1);
      var kids, rest := Below(ps, next, 0), Below(ps, path, i + 1);
      forall x | x in Preorder(kids) ensures c.ppid != x.pid {
        NoneBelowIsAbove(ps, path, i, x);
      }
      forall x, y | (x == c || x in Preorder(kids)) && y in Preorder(rest) ensures x.ppid != y.pid && y.ppid != x.pid {
        ParentIsNear(ps, path, i, x, y);
      }
      JoinOrders(c, kids, rest);
      assert Below(ps, path, i) == Trees(Node(c, kids), rest);
    }
  }

  lemma {:induction false} JoinOrders(c: Process, kids: Forest, rest: Forest)
    requires ParentsFirst(Preorder(kids)) && ParentsFirst(Preorder(rest))
    requires ParentsLast(Postorder(kids)) && ParentsLast(Postorder(rest))
    requires forall x :: x in Preorder(kids) ==> c.ppid != x.pid
    requires forall x, y :: (x == c || x in Preorder(kids)) && y in Preorder(rest) ==>
               x.ppid != y.pid && y.ppid != x.pid
    ensures ParentsFirst(Preorder(Trees(Node(c, kids), rest))) && ParentsLast(Postorder(Trees(Node(c, kids), rest)))
  {
    forall x
      ensures (x in Postorder(kids) <==> x in Preorder(kids)) && (x in Postorder(rest) <==> x in Preorder(rest))
    {
      InPostorder(kids, x);
      InPostorder(rest, x);
    }
    JoinParentsFirst(c, Preorder(kids), Preorder(rest));
    JoinParentsLast(c, Postorder(kids), Postorder(rest));
  }

}
