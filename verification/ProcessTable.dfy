/** pstree itself: the adjacency table filled in one pass over the snapshot, and the
    recursive printing over it. */
module ProcessTable {
  import opened Options
  import opened ProcessForest
  import opened ProcessLayout
  import opened Sublists
  import opened Texts

  const MAX_PROCESS_COUNT := 1024
  const MAX_CHILDREN := 256
  const MAX_ROOTS := 10

  /** A ppid of -1 stands for a status file without the line for it. */
  predicate HasParent(p: Process) {
    p.ppid != -1 && p.ppid != 0
  }

  predicate Orphan(p: Process, alive: int -> bool) {
    HasParent(p) && !alive(p.ppid)
  }

  /** The processes that are not freed again as orphans. */
  function Kept(entries: seq<Process>, alive: int -> bool): seq<Process> {
    if entries == [] then []
    else Kept(entries[..|entries| - 1], alive)
         + (if Orphan(entries[|entries| - 1], alive) then [] else [entries[|entries| - 1]])
  }

  function HasHome(alive: int -> bool): Process -> bool {
    (p: Process) => p.ppid == 0 || p.ppid == -1 || alive(p.ppid)
  }

  function IsChildOf(pid: int): Process -> bool {
    (p: Process) => p.ppid == pid
  }

  /** The processes kept are exactly those without a parent line, with ppid 0, or with a
      parent that exists, in the order read and each as often as it was read. */
  lemma {:induction false} KeptAre(entries: seq<Process>, alive: int -> bool)
    ensures Picks(Kept(entries, alive), entries, HasHome(alive))
  {
    if entries == [] {
      PicksNone(HasHome(alive));
    } else {
      var init, last := entries[..|entries| - 1], entries[|entries| - 1];
      KeptAre(init, alive);
      PicksLast(Kept(init, alive), entries, HasHome(alive), init, last);
    }
  }

  /** A process is kept if and only if it was read and its parent exists, unless it has
      none. */
  lemma {:induction false} KeptIff(entries: seq<Process>, alive: int -> bool, p: Process)
    ensures p in Kept(entries, alive) <==> p in entries && (p.ppid == 0 || p.ppid == -1 || alive(p.ppid))
  {
    KeptAre(entries, alive);
    PicksIn(Kept(entries, alive), entries, HasHome(alive), p);
  }

  /** The children recorded under a pid are exactly the processes with that ppid, in the
      order read. */
  lemma {:induction false} ChildrenAreInOrder(ps: seq<Process>, pid: int)
    ensures Picks(Children(ps, pid), ps, IsChildOf(pid))
  {
    if ps == [] {
      PicksNone(IsChildOf(pid));
    } else {
      var init, last := ps[..|ps| - 1], ps[|ps| - 1];
      ChildrenAreInOrder(init, pid);
      PicksLast(Children(init, pid), ps, IsChildOf(pid), init, last);
    }
  }

  function Parents(ps: seq<Process>): set<int> {
    set i | 0 <= i < |ps| && HasParent(ps[i]) :: ps[i].ppid
  }

  /** The snapshot fits the arrays. */
  ghost predicate Fits(ps: seq<Process>) {
    && |Parents(ps)| <= MAX_PROCESS_COUNT
    && |Children(ps, 0)| <= MAX_ROOTS
    && forall pid :: |Children(ps, pid)| <= MAX_CHILDREN
  }

  lemma {:induction false} ChildrenGrow(ps: seq<Process>, n: nat, pid: int)
    requires n <= |ps|
    ensures |Children(ps[..n], pid)| <= |Children(ps, pid)|
  {
    if n < |ps| {
      ChildrenGrow(ps[..|ps| - 1], n, pid);
      assert ps[..|ps| - 1][..n] == ps[..n];
    } else {
      assert ps[..n] == ps;
    }
  }

  lemma SubsetSize(a: set<int>, b: set<int>)
    requires a <= b
    ensures |a| <= |b|
  {
    assert |b - a| + |a| == |b| by {
      assert b == (b - a) + a;
    }
  }

  lemma PrefixFits(ps: seq<Process>, n: nat)
    requires n <= |ps| && Fits(ps)
    ensures Fits(ps[..n])
  {
    assert Parents(ps[..n]) <= Parents(ps) by {
      forall x | x in Parents(ps[..n]) ensures x in Parents(ps) {
        var i :| 0 <= i < n && HasParent(ps[..n][i]) && ps[..n][i].ppid == x;
        assert ps[i].ppid == x;
      }
    }
    SubsetSize(Parents(ps[..n]), Parents(ps));
    forall pid ensures |Children(ps[..n], pid)| <= |Children(ps, pid)| {
      ChildrenGrow(ps, n, pid);
    }
  }

  lemma RootChain(ps: seq<Process>, k: nat)
    requires k < |Children(ps, 0)|
    ensures Chain(ps, [Children(ps, 0)[k].pid])
  {
    ChildrenAre(ps, 0, k);
    var i :| 0 <= i < |ps| && ps[i] == Children(ps, 0)[k];
  }

  /** The text for the first n roots. */
  function Printed(lab: Process -> string, ps: seq<Process>, n: nat): string
    requires Distinct(ps) && n <= |Children(ps, 0)|
  {
    if n == 0 then ""
    else
      RootChain(ps, n - 1);
      var root := Children(ps, 0)[n - 1];
      Printed(lab, ps, n - 1) + RootText(lab, root, Below(ps, [root.pid], 0))
  }

  function FreedBy(ps: seq<Process>, n: nat): seq<Process>
    requires Distinct(ps) && n <= |Children(ps, 0)|
  {
    if n == 0 then []
    else
      RootChain(ps, n - 1);
      FreedBy(ps, n - 1) + Postorder(Below(ps, [Children(ps, 0)[n - 1].pid], 0))
  }

  lemma FreedByFirst(ps: seq<Process>, n: nat, k: nat, q: Process)
    requires Distinct(ps) && n <= k < |Children(ps, 0)| && Chain(ps, [Children(ps, 0)[k].pid])
    requires q in Preorder(Below(ps, [Children(ps, 0)[k].pid], 0))
    ensures q !in FreedBy(ps, n)
  {
    if n > 0 {
      FreedByFirst(ps, n - 1, k, q);
      RootChain(ps, n - 1);
      ChildrenDiffer(ps, 0, n - 1, k);
      var r1, r2 := Children(ps, 0)[k].pid, Children(ps, 0)[n - 1].pid;
      RootsAreApart(ps, r1, r2, q);
      InPostorder(Below(ps, [r2], 0), q);
    }
  }

  lemma ChildrenSnoc(ps: seq<Process>, p: Process, pid: int)
    ensures Children(ps + [p], pid) == Children(ps, pid) + (if p.ppid == pid then [p] else [])
  {
    assert (ps + [p])[..|ps + [p]| - 1] == ps;
  }

  lemma ParentsSnoc(ps: seq<Process>, p: Process)
    ensures Parents(ps + [p]) == Parents(ps) + (if HasParent(p) then {p.ppid} else {})
  {
    var qs := ps + [p];
    forall x | x in Parents(ps) ensures x in Parents(qs) {
      var i :| 0 <= i < |ps| && HasParent(ps[i]) && ps[i].ppid == x;
      assert qs[i] == ps[i];
    }
    assert qs[|ps|] == p;
  }

  lemma {:induction false} NoChildren(ps: seq<Process>, pid: int)
    requires pid !in Parents(ps) && pid != 0 && pid != -1
    ensures Children(ps, pid) == []
  {
    if ps != [] {
      var init := ps[..|ps| - 1];
      assert ps == init + [ps[|ps| - 1]];
      ParentsSnoc(init, ps[|ps| - 1]);
      NoChildren(init, pid);
    }
  }

  lemma {:induction false} DistinctSize(xs: seq<int>, s: set<int>)
    requires (forall i, j :: 0 <= i < j < |xs| ==> xs[i] != xs[j]) && forall i :: 0 <= i < |xs| ==> xs[i] in s
    ensures |xs| <= |s|
  {
    if xs != [] {
      var last := xs[|xs| - 1];
      DistinctSize(xs[..|xs| - 1], s - {last});
    }
  }

  lemma {:induction false} KeptPrefix(entries: seq<Process>, alive: int -> bool, n: nat) returns (m: nat)
    requires n <= |entries|
    ensures m <= |Kept(entries, alive)| && Kept(entries[..n], alive) == Kept(entries, alive)[..m]
  {
    if n == |entries| {
      m := |Kept(entries, alive)|;
      assert entries[..n] == entries;
    } else {
      m := KeptPrefix(entries[..|entries| - 1], alive, n);
      assert entries[..|entries| - 1][..n] == entries[..n];
    }
  }

  lemma KeptFits(entries: seq<Process>, alive: int -> bool, n: nat)
    requires n <= |entries| && Fits(Kept(entries, alive))
    ensures Fits(Kept(entries[..n], alive))
  {
    var m := KeptPrefix(entries, alive, n);
    PrefixFits(Kept(entries, alive), m);
  }

  /** The room one more process needs is there when the result still fits. */
  lemma RoomFor(rows: seq<int>, ps: seq<Process>, p: Process)
    requires Fits(ps + [p])
    requires forall i, j :: 0 <= i < j < |rows| ==> rows[i] != rows[j]
    requires forall i :: 0 <= i < |rows| ==> rows[i] in Parents(ps)
    ensures p.ppid == 0 ==> |Children(ps, 0)| < MAX_ROOTS
    ensures |Children(ps, p.ppid)| < MAX_CHILDREN
    ensures HasParent(p) && p.ppid !in rows ==> |rows| < MAX_PROCESS_COUNT
  {
    ChildrenSnoc(ps, p, p.ppid);
    assert |Children(ps + [p], p.ppid)| <= MAX_CHILDREN;
    ParentsSnoc(ps, p);
    if HasParent(p) && p.ppid !in rows {
      DistinctSize(rows + [p.ppid], Parents(ps + [p]));
    }
  }

  /** printTree looks up the row of its process and reads its child count; the lookup
      fails exactly for a process without recorded children.  Rows are for the ppids
      read, except 0 and -1. */
  lemma RowMissingIff(ps: seq<Process>, pid: int)
    requires pid > 0
    ensures pid !in Parents(ps) <==> Children(ps, pid) == []
    ensures forall x :: x in Parents(ps) <==> x != 0 && x != -1 && exists i :: 0 <= i < |ps| && ps[i].ppid == x
  {
    if pid !in Parents(ps) {
      NoChildren(ps, pid);
    } else {
      var i :| 0 <= i < |ps| && HasParent(ps[i]) && ps[i].ppid == pid;
      var k := ChildIsListed(ps, ps[i]);
    }
  }

  lemma PositiveChild(ps: seq<Process>, path: seq<int>, i: nat)
    requires Distinct(ps) && Chain(ps, path) && i < |Children(ps, Last(path))|
    ensures Children(ps, Last(path))[i].pid > 0
  {
    ChildrenAre(ps, Last(path), i);
  }

  /** The finished table: the pids that have a row, the rows, and the roots. */
  datatype Rows = Rows(pids: seq<int>, relations: seq<seq<Process>>, roots: seq<Process>)

  ghost predicate RowsOf(ps: seq<Process>, rows: Rows) {
    && |rows.pids| == |rows.relations|
    && (forall i :: 0 <= i < |rows.pids| ==> rows.relations[i] == Children(ps, rows.pids[i]))
    && (forall x :: x > 0 ==> (x in rows.pids <==> Children(ps, x) != []))
    && rows.roots == Children(ps, 0)
  }

  /** The forest is what the rows lead to from these children. */
  ghost predicate Matches(ps: seq<Process>, kids: seq<Process>, f: Forest)
    decreases f
  {
    match f
    case Empty => kids == []
    case Trees(Node(p, g), rest) =>
      && kids != [] && p == kids[0] && p.pid > 0
      && Matches(ps, Children(ps, p.pid), g) && Matches(ps, kids[1..], rest)
  }

  lemma {:induction false} BelowMatches(ps: seq<Process>, path: seq<int>, i: nat)
    requires Distinct(ps) && Chain(ps, path) && i <= |Children(ps, Last(path))|
    ensures Matches(ps, Children(ps, Last(path))[i..], Below(ps, path, i))
    decreases Unmet(ps, path), |Children(ps, Last(path))| - i
  {
    var cs := Children(ps, Last(path));
    if i < |cs| {
      ChainExtends(ps, path, i);
      PositiveChild(ps, path, i);
      BelowMatches(ps, path + [cs[i].pid], 0);
      BelowMatches(ps, path, i + 1);
      assert cs[i..][1..] == cs[i + 1..];
      assert Children(ps, cs[i].pid)[0..] == Children(ps, cs[i].pid);
    }
  }

  function Size(f: Forest): nat {
    match f
    case Empty => 0
    case Trees(Node(p, g), rest) => 1 + Size(g) + Size(rest)
  }

  /** Nothing in the forest was freed, and nothing is in it twice. */
  ghost predicate Untouched(f: Forest, freed: seq<Process>) {
    NoRepeats(Preorder(f)) && forall q :: q in Preorder(f) ==> q !in freed
  }

  lemma {:induction false} InNode(p: Process, g: Forest, rest: Forest, q: Process)
    ensures q in Preorder(Trees(Node(p, g), rest)) <==> q == p || q in Preorder(g) || q in Preorder(rest)
  {
  }

  lemma NoRepeatsSplit(p: Process, a: seq<Process>, b: seq<Process>)
    requires NoRepeats([p] + a + b)
    ensures NoRepeats(a) && NoRepeats(b) && p !in a && p !in b && forall q :: q in a ==> q !in b
  {
    var all := [p] + a + b;
    forall i, j | 0 <= i < j < |a| ensures a[i] != a[j] {
      assert all[1 + i] != all[1 + j];
    }
    forall i, j | 0 <= i < j < |b| ensures b[i] != b[j] {
      assert all[1 + |a| + i] != all[1 + |a| + j];
    }
    forall i, j | 0 <= i < |a| && 0 <= j < |b| ensures a[i] != b[j] {
      assert all[1 + i] != all[1 + |a| + j];
    }
    forall i | 0 <= i < |a| ensures a[i] != p {
      assert all[0] != all[1 + i];
    }
    forall j | 0 <= j < |b| ensures b[j] != p {
      assert all[0] != all[1 + |a| + j];
    }
  }

  /** Printing and freeing the first tree leaves the others untouched. */
  lemma {:induction false} FirstTree(p: Process, g: Forest, rest: Forest, freed: seq<Process>)
    requires Untouched(Trees(Node(p, g), rest), freed)
    ensures p !in freed && Untouched(g, freed) && Untouched(rest, freed + Postorder(g) + [p])
  {
    NoRepeatsSplit(p, Preorder(g), Preorder(rest));
    InNode(p, g, rest, p);
    forall q | q in Preorder(g) ensures q !in freed {
      InNode(p, g, rest, q);
    }
    forall q | q in Preorder(rest) ensures q !in freed + Postorder(g) + [p] {
      InNode(p, g, rest, q);
      InPostorder(g, q);
    }
  }

  /** When main comes to root i, its forest is there and none of it was freed. */
  lemma RootIsReady(ps: seq<Process>, i: nat)
    requires Distinct(ps) && i < |Children(ps, 0)|
    ensures var root := Children(ps, 0)[i];
            && Chain(ps, [root.pid])
            && Matches(ps, Children(ps, root.pid), Below(ps, [root.pid], 0))
            && Untouched(Below(ps, [root.pid], 0), FreedBy(ps, i))
  {
    var pid := Children(ps, 0)[i].pid;
    RootChain(ps, i);
    BelowMatches(ps, [pid], 0);
    assert Children(ps, pid)[0..] == Children(ps, pid);
    PrintsOnce(ps, [pid], 0);
    forall q | q in Preorder(Below(ps, [pid], 0)) ensures q !in FreedBy(ps, i) {
      FreedByFirst(ps, i, i, q);
    }
  }

  /** What is printed for one child. */
  function ChildText(lab: Process -> string, level: nat, p: Process, g: Forest, first: bool): string {
    Lead(level, first) + "-" + lab(p) + Lane(lab, p, g) + Render(lab, level + 1, g, true)
  }

  lemma {:induction false} RegroupChild(a: string, lead: string, name: string, lane: string, inner: string)
    ensures a + lead + "-" + name + lane + inner == a + (lead + "-" + name + lane + inner)
  {
  }

  lemma {:induction false} FirstChildText(lab: Process -> string, level: nat, p: Process, g: Forest, rest: Forest,
                                          first: bool)
    ensures Render(lab, level, Trees(Node(p, g), rest), first)
            == ChildText(lab, level, p, g, first) + Render(lab, level, rest, false)
  {
  }

  lemma {:induction false} TextOfChild(lab: Process -> string, level: nat, p: Process, g: Forest, rest: Forest,
                                       first: bool, before: string)
    ensures before + Render(lab, level, Trees(Node(p, g), rest), first)
            == (before + ChildText(lab, level, p, g, first)) + Render(lab, level, rest, false)
  {
    FirstChildText(lab, level, p, g, rest, first);
    Regroup(before, ChildText(lab, level, p, g, first), Render(lab, level, rest, false));
  }

  lemma {:induction false} FreedOfChild(p: Process, g: Forest, rest: Forest, before: seq<Process>)
    ensures before + Postorder(Trees(Node(p, g), rest)) == (before + Postorder(g) + [p]) + Postorder(rest)
  {
  }

  class Table {
    const pids: array<int>
    const relations: array2<Option<Process>>
    const child_num: array<int>
    const init_proc: array<Option<Process>>
    var pids_index: nat
    var init_proc_index: nat
    /** The processes recorded so far. */
    ghost var kept: seq<Process>

    ghost predicate Sized()
      reads this
    {
      && pids.Length == MAX_PROCESS_COUNT && child_num.Length == MAX_PROCESS_COUNT
      && relations.Length0 == MAX_PROCESS_COUNT && relations.Length1 == MAX_CHILDREN
      && init_proc.Length == MAX_ROOTS && pids != child_num
      && pids_index <= MAX_PROCESS_COUNT && init_proc_index <= MAX_ROOTS
    }

    /** Row i lists the children of pids[i], in the order read. */
    ghost predicate RowOk(i: nat)
      requires Sized() && i < pids_index
      reads this, pids, relations, child_num
    {
      var cs := Children(kept, pids[i]);
      && child_num[i] == |cs| <= MAX_CHILDREN
      && forall j :: 0 <= j < |cs| ==> relations[i, j] == Some(cs[j])
    }

    ghost predicate Valid()
      reads this, pids, relations, child_num, init_proc
    {
      && Sized()
      && (forall i, j :: 0 <= i < j < pids_index ==> pids[i] != pids[j])
      && (forall i :: 0 <= i < pids_index ==> pids[i] != 0 && pids[i] != -1 && RowOk(i))
      && (forall i :: pids_index <= i < MAX_PROCESS_COUNT ==> child_num[i] == 0)
      && (forall x :: x in Parents(kept) ==> x in pids[..pids_index])
      && init_proc_index == |Children(kept, 0)|
      && (forall k :: 0 <= k < init_proc_index ==> init_proc[k] == Some(Children(kept, 0)[k]))
    }

    constructor ()
      ensures Valid() && kept == [] && pids_index == 0
      ensures pids.Length == 1024 && relations.Length1 == 256 && init_proc.Length == 10
      ensures fresh(pids) && fresh(relations) && fresh(child_num) && fresh(init_proc)
    {
      pids := new int[MAX_PROCESS_COUNT](_ => 0);
      relations := new Option<Process>[MAX_PROCESS_COUNT, MAX_CHILDREN]((_, _) => None);
      child_num := new int[MAX_PROCESS_COUNT](_ => 0);
      init_proc := new Option<Process>[MAX_ROOTS](_ => None);
      pids_index, init_proc_index := 0, 0;
      kept := [];
    }

    /** The row of a pid, or -1. */
    method FindRow(pid: int) returns (row: int)
      requires Valid()
      ensures -1 <= row < pids_index
      ensures row >= 0 ==> pids[row] == pid
      ensures row == -1 <==> pid !in pids[..pids_index]
    {
      row := -1;
      var j := 0;
      while j < pids_index
        invariant 0 <= j <= pids_index && row == -1 && pid !in pids[..j]
      {
        if pids[j] == pid {
          return j;
        }
        j := j + 1;
      }
    }

    method RecordRoot(p: Process)
      requires Valid() && p.ppid == 0 && init_proc_index < MAX_ROOTS
      modifies this`init_proc_index, this`kept, init_proc
      ensures Valid() && kept == old(kept) + [p]
    {
      ParentsSnoc(kept, p);
      ChildrenSnoc(kept, p, 0);
      init_proc[init_proc_index] := Some(p);
      init_proc_index := init_proc_index + 1;
      kept := kept + [p];
      forall i | 0 <= i < pids_index ensures RowOk(i) {
        assert old(RowOk(i));
        ChildrenSnoc(old(kept), p, pids[i]);
      }
    }

    /** The row of a parent, a new empty one if it has none yet. */
    method RowFor(ppid: int) returns (row: nat)
      requires Valid() && ppid != 0 && ppid != -1
      requires ppid !in pids[..pids_index] ==> pids_index < MAX_PROCESS_COUNT
      modifies this`pids_index, pids
      ensures Valid() && row < pids_index && pids[row] == ppid
      ensures pids_index <= old(pids_index) + 1
      ensures pids[..pids_index] == old(pids[..pids_index]) + (if ppid in old(pids[..pids_index]) then [] else [ppid])
    {
      var tmp_index := FindRow(ppid);
      if tmp_index == -1 {
        NoChildren(kept, ppid);
        tmp_index := pids_index;
        pids[pids_index] := ppid;
        pids_index := pids_index + 1;
        forall i | 0 <= i < tmp_index ensures RowOk(i) {
          assert old(RowOk(i));
        }
        assert RowOk(tmp_index);
        assert pids[..pids_index] == old(pids[..pids_index]) + [ppid];
      }
      row := tmp_index;
    }

    method Append(row: nat, p: Process)
      requires Valid() && row < pids_index && pids[row] == p.ppid && |Children(kept, p.ppid)| < MAX_CHILDREN
      modifies this`kept, relations, child_num
      ensures Valid() && kept == old(kept) + [p]
    {
      ParentsSnoc(kept, p);
      assert RowOk(row);
      relations[row, child_num[row]] := Some(p);
      child_num[row] := child_num[row] + 1;
      kept := kept + [p];
      ChildrenSnoc(old(kept), p, 0);
      forall i | 0 <= i < pids_index ensures RowOk(i) {
        assert old(RowOk(i));
        ChildrenSnoc(old(kept), p, pids[i]);
      }
    }

    /** A process without a parent line is neither a root nor a child. */
    ghost method Skip(p: Process)
      requires Valid() && p.ppid == -1
      modifies this`kept
      ensures Valid() && kept == old(kept) + [p]
    {
      ParentsSnoc(kept, p);
      ChildrenSnoc(kept, p, 0);
      kept := kept + [p];
      forall i | 0 <= i < pids_index ensures RowOk(i) {
        assert old(RowOk(i));
        ChildrenSnoc(old(kept), p, pids[i]);
      }
    }

    method RecordChild(p: Process)
      requires Valid() && HasParent(p) && |Children(kept, p.ppid)| < MAX_CHILDREN
      requires p.ppid !in pids[..pids_index] ==> pids_index < MAX_PROCESS_COUNT
      requires forall x :: x in pids[..pids_index] ==> x in Parents(kept)
      modifies this`pids_index, this`kept, pids, relations, child_num
      ensures Valid() && kept == old(kept) + [p]
      ensures forall x :: x in pids[..pids_index] ==> x in Parents(kept)
    {
      ParentsSnoc(kept, p);
      var row := RowFor(p.ppid);
      ghost var rows := pids[..pids_index];
      assert forall x :: x in rows ==> x in Parents(kept + [p]);
      Append(row, p);
      assert pids[..pids_index] == rows;
    }

    /** Records one process that is not an orphan: a root, a child, or neither. */
    method Record(p: Process)
      requires Valid() && Fits(kept + [p]) && forall x :: x in pids[..pids_index] ==> x in Parents(kept)
      modifies this`pids_index, this`init_proc_index, this`kept, pids, relations, child_num, init_proc
      ensures Valid() && kept == old(kept) + [p] && forall x :: x in pids[..pids_index] ==> x in Parents(kept)
    {
      RoomFor(pids[..pids_index], kept, p);
      if HasParent(p) {
        RecordChild(p);
      } else {
        ParentsSnoc(kept, p);
        ghost var rows := pids[..pids_index];
        if p.ppid == 0 {
          RecordRoot(p);
        } else {
          Skip(p);
        }
        assert pids[..pids_index] == rows;
      }
    }

    /** The scan of the snapshot. */
    method Scan(entries: seq<Process>, alive: int -> bool)
      requires Valid() && kept == [] && pids_index == 0 && Fits(Kept(entries, alive))
      modifies this`pids_index, this`init_proc_index, this`kept, pids, relations, child_num, init_proc
      ensures Valid() && kept == Kept(entries, alive)
      ensures Picks(kept, entries, HasHome(alive))
      ensures forall x :: x in pids[..pids_index] ==> x in Parents(kept)
    {
      var i := 0;
      while i < |entries|
        invariant 0 <= i <= |entries| && Valid() && kept == Kept(entries[..i], alive)
        invariant forall x :: x in pids[..pids_index] ==> x in Parents(kept)
      {
        assert entries[..i + 1][..i] == entries[..i];
        if !Orphan(entries[i], alive) {
          KeptFits(entries, alive, i + 1);
          Record(entries[i]);
        }
        i := i + 1;
      }
      assert entries[..i] == entries;
      KeptAre(entries, alive);
    }

    method RowContents(row: nat) returns (cs: seq<Process>)
      requires Valid() && row < pids_index
      ensures cs == Children(kept, pids[row])
    {
      assert RowOk(row);
      cs := [];
      for j := 0 to child_num[row]
        invariant cs == Children(kept, pids[row])[..j]
      {
        cs := cs + [relations[row, j].value];
      }
    }

    /** The finished table as printTree reads it. */
    method Contents() returns (rows: Rows)
      requires Valid() && forall x :: x in pids[..pids_index] ==> x in Parents(kept)
      ensures RowsOf(kept, rows)
    {
      var lists: seq<seq<Process>> := [];
      for i := 0 to pids_index
        invariant |lists| == i && forall k :: 0 <= k < i ==> lists[k] == Children(kept, pids[k])
      {
        var cs := RowContents(i);
        lists := lists + [cs];
      }
      var roots: seq<Process> := [];
      for k := 0 to init_proc_index
        invariant roots == Children(kept, 0)[..k]
      {
        roots := roots + [init_proc[k].value];
      }
      rows := Rows(pids[..pids_index], lists, roots);
      forall x | x > 0 ensures x in rows.pids <==> Children(kept, x) != [] {
        RowMissingIff(kept, x);
      }
    }
  }

  /** What has been written, and which processes have been freed. */
  class Output {
    /** How a process is written: Label. */
    const lab: Process -> string
    var out: string
    var freed: seq<Process>

    constructor ()
      ensures lab == Label && out == "" && freed == []
    {
      lab := Label;
      out, freed := "", [];
    }

    /** The row of a pid, or -1. */
    static method RowIn(rows: Rows, pid: int) returns (row: int)
      ensures -1 <= row < |rows.pids|
      ensures row >= 0 ==> rows.pids[row] == pid
      ensures row == -1 <==> pid !in rows.pids
    {
      row := -1;
      for j := 0 to |rows.pids|
        invariant row == -1 && pid !in rows.pids[..j]
      {
        if rows.pids[j] == pid {
          return j;
        }
      }
    }

    /** Prints the forest below a process and frees it, reading no process after it was
        freed.  The process needs a row. */
    method PrintTree(rows: Rows, level: nat, pid: int, ghost ps: seq<Process>, ghost f: Forest)
      requires RowsOf(ps, rows) && pid in rows.pids && Matches(ps, Children(ps, pid), f)
      requires Untouched(f, freed)
      modifies this
      ensures out == old(out) + Render(lab, level, f, true)
      ensures freed == old(freed) + Postorder(f)
      decreases Size(f), 1
    {
      var ppid_index := RowIn(rows, pid);
      ghost var g := f;
      var i := 0;
      while i < |rows.relations[ppid_index]|
        invariant 0 <= i <= |Children(ps, pid)| && Size(g) <= Size(f)
        invariant Matches(ps, Children(ps, pid)[i..], g) && Untouched(g, freed)
        invariant out + Render(lab, level, g, i == 0) == old(out) + Render(lab, level, f, true)
        invariant freed + Postorder(g) == old(freed) + Postorder(f)
      {
        var c := rows.relations[ppid_index][i];
        FirstTree(g.first.proc, g.first.kids, g.rest, freed);
        TextOfChild(lab, level, g.first.proc, g.first.kids, g.rest, i == 0, out);
        FreedOfChild(g.first.proc, g.first.kids, g.rest, freed);
        PrintChild(rows, level, c, i == 0, ps, g.first.kids);
        g := g.rest;
        i := i + 1;
      }
    }

    /** One child: its line or place on the line, its label, its subtree; then it is freed. */
    method PrintChild(rows: Rows, level: nat, c: Process, first: bool, ghost ps: seq<Process>, ghost kids: Forest)
      requires RowsOf(ps, rows) && c.pid > 0 && Matches(ps, Children(ps, c.pid), kids)
      requires c !in freed && Untouched(kids, freed)
      modifies this
      ensures out == old(out) + ChildText(lab, level, c, kids, first)
      ensures freed == old(freed) + Postorder(kids) + [c]
      decreases Size(kids), 3
    {
      PrintOwn(level, c, first);
      PrintBelow(rows, level, c, ps, kids);
      freed := freed + [c];
      RegroupChild(old(out), Lead(level, first), lab(c), Lane(lab, c, kids), Render(lab, level + 1, kids, true));
    }

    method PrintOwn(level: nat, c: Process, first: bool)
      modifies this`out
      ensures out == old(out) + Lead(level, first) + "-" + lab(c)
    {
      if !first {
        StartLine(level);
      } else {
        assert out + Lead(level, first) == out;
      }
      out := out + "-";
      out := out + lab(c);
    }

    /** The dashes after a process with children, and its children. */
    method PrintBelow(rows: Rows, level: nat, c: Process, ghost ps: seq<Process>, ghost kids: Forest)
      requires RowsOf(ps, rows) && c.pid > 0 && Matches(ps, Children(ps, c.pid), kids)
      requires Untouched(kids, freed)
      modifies this
      ensures out == old(out) + Lane(lab, c, kids) + Render(lab, level + 1, kids, true)
      ensures freed == old(freed) + Postorder(kids)
      decreases Size(kids), 2
    {
      var curr_pid_index := RowIn(rows, c.pid);
      if curr_pid_index != -1 && |rows.relations[curr_pid_index]| != 0 {
        out := out + Fill('-', CELL - 1 - |lab(c)|);
        PrintTree(rows, level + 1, c.pid, ps, kids);
      }
    }

    method StartLine(level: nat)
      modifies this`out
      ensures out == old(out) + Lead(level, false)
    {
      out := out + "\n";
      for j := 0 to level
        invariant out == old(out) + ("\n" + Fill(' ', CELL * j))
      {
        out := out + Fill(' ', CELL);
        assert Fill(' ', CELL * j) + Fill(' ', CELL) == Fill(' ', CELL * (j + 1));
      }
    }

    /** main's loop over the roots.  A root without recorded children has no row, and
        then the lookup in printTree would read outside the table. */
    method PrintRoots(rows: Rows, ghost ps: seq<Process>)
      requires RowsOf(ps, rows) && Distinct(ps) && freed == []
      requires forall k :: 0 <= k < |rows.roots| ==> rows.roots[k].pid in rows.pids
      modifies this
      ensures out == old(out) + Printed(lab, ps, |Children(ps, 0)|)
      ensures freed == FreedBy(ps, |Children(ps, 0)|)
    {
      for i := 0 to |rows.roots|
        invariant out == old(out) + Printed(lab, ps, i) && freed == FreedBy(ps, i)
      {
        RootIsReady(ps, i);
        ghost var kids := Below(ps, [rows.roots[i].pid], 0);
        PrintRoot(rows, rows.roots[i], ps, kids);
        Regroup(old(out), Printed(lab, ps, i), RootText(lab, rows.roots[i], kids));
      }
    }

    method PrintRoot(rows: Rows, root: Process, ghost ps: seq<Process>, ghost kids: Forest)
      requires RowsOf(ps, rows) && root.pid in rows.pids && Matches(ps, Children(ps, root.pid), kids)
      requires Untouched(kids, freed)
      modifies this
      ensures out == old(out) + RootText(lab, root, kids)
      ensures freed == old(freed) + Postorder(kids)
    {
      ghost var own := lab(root) + Fill('-', CELL - |lab(root)|);
      out := out + lab(root);
      out := out + Fill('-', CELL - |lab(root)|);
      Regroup(old(out), lab(root), Fill('-', CELL - |lab(root)|));
      PrintTree(rows, 1, root.pid, ps, kids);
      out := out + "\n";
      Regroup(old(out), own, Render(lab, 1, kids, true));
      Regroup(old(out), own + Render(lab, 1, kids, true), "\n");
    }
  }

  /** The whole program on one snapshot in which every root has a recorded child. */
  method PrintSnapshot(entries: seq<Process>, alive: int -> bool) returns (text: string)
    requires Fits(Kept(entries, alive)) && Distinct(Kept(entries, alive))
    requires var ps := Kept(entries, alive);
             forall k :: 0 <= k < |Children(ps, 0)| ==> Children(ps, Children(ps, 0)[k].pid) != []
    ensures var ps := Kept(entries, alive); text == Printed(Label, ps, |Children(ps, 0)|)
  {
    ghost var ps := Kept(entries, alive);
    var table := new Table();
    table.Scan(entries, alive);
    var rows := table.Contents();
    forall k | 0 <= k < |rows.roots| ensures rows.roots[k].pid in rows.pids {
      RootChain(ps, k);
      ChainPositive(ps, [Children(ps, 0)[k].pid], 0);
    }
    var output := new Output();
    output.PrintRoots(rows, ps);
    text := output.out;
  }
}
