/** The text printed for a process tree, and where in it each process stands. */
module ProcessLayout {
  import opened ProcessForest
  import opened Options
  import opened Texts
  import Payload

  // The layout is stated for any labelling of the processes; the program's is Label.

  /** Width of one level. */
  const CELL := 30

  /** The pid as printed into its 10-byte buffer. */
  function PidText(pid: int): string {
    var d := Payload.Decimal(pid);
    if |d| <= 9 then d else d[..9]
  }

  function Label(p: Process): string {
    p.name + ",[" + PidText(p.pid) + "]"
  }

  lemma {:induction false} NineDigits(pid: nat)
    ensures |PidText(pid)| <= 9 && Payload.AllDigits(PidText(pid)) && PidText(pid) != ""
    ensures Payload.Value(PidText(pid)) == pid <==> pid < 1_000_000_000
  {
    var d := Payload.Decimal(pid);
    Payload.DecimalValue(pid);
    assert Payload.Ten(9) == 1_000_000_000 by {
      assert Payload.Ten(2) == 100 && Payload.Ten(4) == 10_000 && Payload.Ten(6) == 1_000_000;
    }
    Payload.ValueBound(PidText(pid));
    Payload.TenGrows(|PidText(pid)|, 9);
    if pid < 1_000_000_000 {
      Payload.DecimalLength(pid, 9, 1_000_000_000);
    }
  }

  /** A process is written as its name and its pid in brackets.  The pid reads back if and
      only if it has at most nine digits, which is what its buffer holds. */
  lemma {:induction false} LabelIs(p: Process) returns (d: string)
    requires p.pid >= 0
    ensures Label(p) == p.name + ",[" + d + "]" && |d| <= 9
    ensures Payload.ScanInt(d + "]") == Some(p.pid) <==> p.pid < 1_000_000_000
  {
    d := PidText(p.pid);
    NineDigits(p.pid);
    Payload.ScanForms("", "", d, "]");
    assert "" + ("" + (d + "]")) == d + "]";
  }

  function Fill(c: char, n: int): string {
    seq(if n > 0 then n else 0, _ => c)
  }

  /** A sibling starts a new line, indented by its level. */
  function Lead(level: nat, first: bool): string {
    if first then "" else "\n" + Fill(' ', CELL * level)
  }

  /** After the label of a process with children come dashes up to the next level. */
  function Lane(lab: Process -> string, p: Process, kids: Forest): string {
    if kids == Empty then "" else Fill('-', CELL - 1 - |lab(p)|)
  }

  /** What printTree prints for the children of one process from one of them on. */
  function Render(lab: Process -> string, level: nat, f: Forest, first: bool): string
    decreases f
  {
    match f
    case Empty => ""
    case Trees(Node(p, kids), rest) =>
      Lead(level, first) + "-" + lab(p) + Lane(lab, p, kids)
      + Render(lab, level + 1, kids, true) + Render(lab, level, rest, false)
  }

  /** The line or lines main prints for a root. */
  function RootText(lab: Process -> string, p: Process, kids: Forest): string {
    lab(p) + Fill('-', CELL - |lab(p)|) + Render(lab, 1, kids, true) + "\n"
  }

  /** Characters after the last newline. */
  function Column(s: string): nat {
    if s == [] || s[|s| - 1] == '\n' then 0 else 1 + Column(s[..|s| - 1])
  }

  function Newlines(s: string): nat {
    if s == [] then 0 else Newlines(s[..|s| - 1]) + (if s[|s| - 1] == '\n' then 1 else 0)
  }

  function Leaves(f: Forest): nat {
    match f
    case Empty => 0
    case Trees(Node(p, kids), rest) => (if kids == Empty then 1 else Leaves(kids)) + Leaves(rest)
  }

  lemma {:induction false} ColumnAppend(a: string, b: string)
    requires '\n' !in b
    ensures Column(a + b) == Column(a) + |b|
  {
    if b == [] {
      assert a + b == a;
    } else {
      assert (a + b)[..|a + b| - 1] == a + b[..|b| - 1];
      ColumnAppend(a, b[..|b| - 1]);
    }
  }

  lemma {:induction false} ColumnAfterNewline(a: string, b: string)
    requires '\n' !in b
    ensures Column(a + "\n" + b) == |b|
  {
    ColumnAppend(a + "\n", b);
  }

  lemma {:induction false} NewlinesAppend(a: string, b: string)
    ensures Newlines(a + b) == Newlines(a) + Newlines(b)
  {
    if b == [] {
      assert a + b == a;
    } else {
      assert (a + b)[..|a + b| - 1] == a + b[..|b| - 1];
      NewlinesAppend(a, b[..|b| - 1]);
    }
  }

  lemma {:induction false} NoNewlines(s: string)
    requires '\n' !in s
    ensures Newlines(s) == 0
  {
    if s != [] {
      NoNewlines(s[..|s| - 1]);
    }
  }

  /** No label has a newline in it. */
  predicate NoBreaks(lab: Process -> string, f: Forest) {
    match f
    case Empty => true
    case Trees(Node(p, kids), rest) => '\n' !in lab(p) && NoBreaks(lab, kids) && NoBreaks(lab, rest)
  }

  /** The labels of all processes with children leave room for the branch. */
  predicate InnerFit(lab: Process -> string, f: Forest) {
    match f
    case Empty => true
    case Trees(Node(p, kids), rest) =>
      (kids != Empty ==> |lab(p)| <= 29) && InnerFit(lab, kids) && InnerFit(lab, rest)
  }

  /** Where in the text a process stands, and its depth. */
  datatype Mark = Mark(proc: Process, level: nat, at: nat)

  // How many characters the pieces take.

  function LeadWidth(level: nat, first: bool): nat {
    if first then 0 else 1 + CELL * level
  }

  function LaneWidth(lab: Process -> string, p: Process, kids: Forest): nat {
    if kids == Empty || |lab(p)| >= CELL - 1 then 0 else CELL - 1 - |lab(p)|
  }

  function Width(lab: Process -> string, level: nat, f: Forest, first: bool): nat
    decreases f
  {
    match f
    case Empty => 0
    case Trees(Node(p, kids), rest) =>
      LeadWidth(level, first) + 1 + |lab(p)| + LaneWidth(lab, p, kids)
      + Width(lab, level + 1, kids, true) + Width(lab, level, rest, false)
  }

  lemma {:induction false} WidthIs(lab: Process -> string, level: nat, f: Forest, first: bool)
    ensures |Render(lab, level, f, first)| == Width(lab, level, f, first)
    decreases f
  {
    match f
    case Empty =>
    case Trees(Node(p, kids), rest) =>
      WidthIs(lab, level + 1, kids, true);
      WidthIs(lab, level, rest, false);
  }

  function Marks(lab: Process -> string, base: nat, level: nat, f: Forest, first: bool): seq<Mark>
    decreases f
  {
    match f
    case Empty => []
    case Trees(Node(p, kids), rest) =>
      var at := base + LeadWidth(level, first);
      var down := at + 1 + |lab(p)| + LaneWidth(lab, p, kids);
      [Mark(p, level, at)] + Marks(lab, down, level + 1, kids, true)
      + Marks(lab, down + Width(lab, level + 1, kids, true), level, rest, false)
  }

  ghost predicate AllInPlace(lab: Process -> string, text: string, ms: seq<Mark>) {
    forall m :: m in ms ==> InPlace(lab, text, m)
  }

  function Marked(ms: seq<Mark>): seq<Process> {
    seq(|ms|, i requires 0 <= i < |ms| => ms[i].proc)
  }

  /** The mark really is where its process is printed, at the column of its level. */
  predicate InPlace(lab: Process -> string, text: string, m: Mark) {
    && m.at + 1 + |lab(m.proc)| <= |text|
    && text[m.at..m.at + 1 + |lab(m.proc)|] == "-" + lab(m.proc)
    && Column(text[..m.at]) == 30 * m.level
  }

  lemma {:induction false} MarksArePreorder(lab: Process -> string, base: nat, level: nat, f: Forest, first: bool)
    ensures Marked(Marks(lab, base, level, f, first)) == Preorder(f)
    decreases f
  {
    match f
    case Empty =>
    case Trees(Node(p, kids), rest) =>
      var at := base + LeadWidth(level, first);
      var down := at + 1 + |lab(p)| + LaneWidth(lab, p, kids);
      var next := down + Width(lab, level + 1, kids, true);
      MarksArePreorder(lab, down, level + 1, kids, true);
      MarksArePreorder(lab, next, level, rest, false);
      MarksOfNode(lab, base, level, p, kids, rest, first, at, down, next);
      MarkedJoin(Mark(p, level, at), Marks(lab, down, level + 1, kids, true), Marks(lab, next, level, rest, false));
  }

  lemma {:induction false} MarkedJoin(m: Mark, a: seq<Mark>, b: seq<Mark>)
    ensures Marked([m] + a + b) == [m.proc] + Marked(a) + Marked(b)
  {
  }

  /** A process and its lane, printed from the column of its level, end at the column of
      the next level, exactly if the label leaves room for the branch. */
  lemma {:induction false} LaneFills(lab: Process -> string, before: string, level: nat, p: Process, kids: Forest)
    requires '\n' !in lab(p) && Column(before) == CELL * level && kids != Empty
    ensures Column(before + ("-" + lab(p) + Lane(lab, p, kids))) == CELL * (level + 1) <==> |lab(p)| <= CELL - 1
  {
    ColumnAppend(before, "-" + lab(p) + Lane(lab, p, kids));
  }

  lemma {:induction false} LeadPlaces(before: string, level: nat, first: bool)
    requires first ==> Column(before) == CELL * level
    ensures Column(before + Lead(level, first)) == CELL * level
  {
    if first {
      assert before + Lead(level, first) == before;
    } else {
      assert before + Lead(level, first) == before + "\n" + Fill(' ', CELL * level);
      ColumnAfterNewline(before, Fill(' ', CELL * level));
    }
  }

  /** Where the pieces of a printed forest lie in a text. */
  lemma {:induction false} Pieces(text: string, before: string, lead: string, name: string, lane: string,
                                  inner: string, outer: string, after: string)
    requires text == before + (lead + "-" + name + lane + inner + outer) + after
    ensures var start := before + lead;
            var down := start + ("-" + name + lane);
            && text == down + inner + (outer + after)
            && text == (down + inner) + outer + after
            && |start| + 1 + |name| <= |text| && text[..|start|] == start
            && text[|start|..|start| + 1 + |name|] == "-" + name
  {
    var start := before + lead;
    var down := start + ("-" + name + lane);
    assert text == down + inner + (outer + after);
    assert text == start + ("-" + name) + (lane + inner + outer + after);
  }

  lemma {:induction false} FirstInPlace(lab: Process -> string, text: string, start: string, level: nat, p: Process)
    requires Column(start) == CELL * level && |start| + 1 + |lab(p)| <= |text| && text[..|start|] == start
    requires text[|start|..|start| + 1 + |lab(p)|] == "-" + lab(p)
    ensures InPlace(lab, text, Mark(p, level, |start|))
  {
  }

  /** The first process of a printed forest is in place, and the rest of the text splits
      into its children's and its later siblings'. */
  lemma {:induction false} NodeInPlace(lab: Process -> string, text: string, before: string, level: nat, p: Process,
                                       kids: Forest, first: bool, inner: string, outer: string, after: string)
    returns (at: nat, down: string)
    requires text == before + (Lead(level, first) + "-" + lab(p) + Lane(lab, p, kids) + inner + outer) + after
    requires '\n' !in lab(p) && (first ==> Column(before) == CELL * level)
    ensures at == |before| + LeadWidth(level, first) && |down| == at + 1 + |lab(p)| + LaneWidth(lab, p, kids)
    ensures kids != Empty ==> (Column(down) == CELL * (level + 1) <==> |lab(p)| <= CELL - 1)
    ensures text == down + inner + (outer + after) && text == (down + inner) + outer + after
    ensures AllInPlace(lab, text, [Mark(p, level, at)])
  {
    var start := before + Lead(level, first);
    at, down := |start|, start + ("-" + lab(p) + Lane(lab, p, kids));
    Pieces(text, before, Lead(level, first), lab(p), Lane(lab, p, kids), inner, outer, after);
    LeadPlaces(before, level, first);
    if kids != Empty {
      LaneFills(lab, start, level, p, kids);
    }
    FirstInPlace(lab, text, start, level, p);
  }

  lemma {:induction false} JoinInPlace(lab: Process -> string, text: string, a: seq<Mark>, b: seq<Mark>, c: seq<Mark>)
    ensures AllInPlace(lab, text, a + b + c) <==>
            AllInPlace(lab, text, a) && AllInPlace(lab, text, b) && AllInPlace(lab, text, c)
  {
    forall m | m in a || m in b || m in c ensures m in a + b + c {
    }
  }

  /** Every process at depth L starts at column 30 L, on its parent's line or on a line
      of its own, wherever the text of its tree stands in the output, if and only if the
      processes with children have labels of at most 29 characters. */
  lemma {:induction false} LayoutInPlaceIff(lab: Process -> string, text: string, before: string, level: nat, f: Forest,
                                            first: bool, after: string)
    requires text == before + Render(lab, level, f, first) + after && NoBreaks(lab, f)
    requires first ==> Column(before) == CELL * level
    ensures AllInPlace(lab, text, Marks(lab, |before|, level, f, first)) <==> InnerFit(lab, f)
    decreases f, 1
  {
    match f
    case Empty =>
    case Trees(Node(p, kids), rest) =>
      var inner, outer := Render(lab, level + 1, kids, true), Render(lab, level, rest, false);
      var at, down := NodeInPlace(lab, text, before, level, p, kids, first, inner, outer, after);
      WidthIs(lab, level + 1, kids, true);
      KidsInPlaceIff(lab, text, down, level + 1, kids, inner, outer + after);
      LayoutInPlaceIff(lab, text, down + inner, level, rest, false, after);
      MarksOfNode(lab, |before|, level, p, kids, rest, first, at, |down|, |down + inner|);
      JoinInPlace(lab, text, [Mark(p, level, at)], Marks(lab, |down|, level + 1, kids, true),
                  Marks(lab, |down + inner|, level, rest, false));
  }

  /** The children are in place if they start where the lane should end, and theirs are. */
  lemma {:induction false} KidsInPlaceIff(lab: Process -> string, text: string, down: string, level: nat, kids: Forest,
                                          inner: string, after: string)
    requires text == down + inner + after && inner == Render(lab, level, kids, true) && NoBreaks(lab, kids)
    ensures AllInPlace(lab, text, Marks(lab, |down|, level, kids, true)) <==>
            (kids != Empty ==> Column(down) == CELL * level) && InnerFit(lab, kids)
    decreases kids, 2
  {
    if kids != Empty {
      if Column(down) == CELL * level {
        LayoutInPlaceIff(lab, text, down, level, kids, true, after);
      } else {
        FirstMisplaced(lab, text, down, level, kids, inner + after);
      }
    }
  }

  lemma {:induction false} FirstMisplaced(lab: Process -> string, text: string, down: string, level: nat, kids: Forest,
                                          rest: string)
    requires text == down + rest && kids != Empty && Column(down) != CELL * level
    ensures !AllInPlace(lab, text, Marks(lab, |down|, level, kids, true))
  {
    var m := Mark(kids.first.proc, level, |down|);
    assert m in Marks(lab, |down|, level, kids, true);
    assert text[..m.at] == down;
  }

  lemma {:induction false} MarksOfNode(lab: Process -> string, base: nat, level: nat, p: Process, kids: Forest,
                                       rest: Forest, first: bool, at: nat, down: nat, next: nat)
    requires at == base + LeadWidth(level, first) && down == at + 1 + |lab(p)| + LaneWidth(lab, p, kids)
    requires next == down + Width(lab, level + 1, kids, true)
    ensures Marks(lab, base, level, Trees(Node(p, kids), rest), first)
            == [Mark(p, level, at)] + Marks(lab, down, level + 1, kids, true) + Marks(lab, next, level, rest, false)
  {
  }

  lemma {:induction false} NewlinesOfFour(a: string, b: string, c: string, d: string)
    ensures Newlines(a + b + c + d) == Newlines(a) + Newlines(b) + Newlines(c) + Newlines(d)
  {
    NewlinesAppend(a + b + c, d);
    NewlinesAppend(a + b, c);
    NewlinesAppend(a, b);
  }

  /** The newlines printed for a forest are its leaves, but for the line it continues. */
  lemma {:induction false} NewlinesAreLeaves(lab: Process -> string, level: nat, f: Forest, first: bool)
    requires NoBreaks(lab, f)
    ensures Newlines(Render(lab, level, f, first)) == Leaves(f) - (if first && f != Empty then 1 else 0)
    ensures f != Empty ==> Leaves(f) >= 1
    decreases f
  {
    match f
    case Empty =>
    case Trees(Node(p, kids), rest) =>
      NewlinesAreLeaves(lab, level + 1, kids, true);
      NewlinesAreLeaves(lab, level, rest, false);
      var own := "-" + lab(p) + Lane(lab, p, kids);
      NoNewlines(own);
      LeadNewlines(level, first);
      RenderOfNode(lab, level, p, kids, rest, first, own);
      NewlinesOfFour(Lead(level, first), own, Render(lab, level + 1, kids, true), Render(lab, level, rest, false));
  }

  lemma {:induction false} RenderOfNode(lab: Process -> string, level: nat, p: Process, kids: Forest, rest: Forest,
                                        first: bool, own: string)
    requires own == "-" + lab(p) + Lane(lab, p, kids)
    ensures Render(lab, level, Trees(Node(p, kids), rest), first)
            == Lead(level, first) + own + Render(lab, level + 1, kids, true) + Render(lab, level, rest, false)
  {
    Associate(Lead(level, first), "-", lab(p), Lane(lab, p, kids));
  }

  lemma {:induction false} Associate(a: string, b: string, c: string, d: string)
    ensures a + b + c + d == a + (b + c + d)
  {
  }

  lemma {:induction false} LeadNewlines(level: nat, first: bool)
    ensures Newlines(Lead(level, first)) == if first then 0 else 1
  {
    if !first {
      NewlinesAppend("\n", Fill(' ', CELL * level));
      NoNewlines(Fill(' ', CELL * level));
      assert "\n"[..0] == "";
      assert Newlines("\n") == 1;
    }
  }

  /** The newlines printed for a root with children are the leaves of its tree. */
  lemma {:induction false} RootNewlines(lab: Process -> string, p: Process, kids: Forest)
    requires '\n' !in lab(p) && NoBreaks(lab, kids) && kids != Empty
    ensures Newlines(RootText(lab, p, kids)) == Leaves(kids)
  {
    var own := lab(p) + Fill('-', CELL - |lab(p)|);
    NoNewlines(own);
    NewlinesAreLeaves(lab, 1, kids, true);
    NewlinesAppend(own, Render(lab, 1, kids, true));
    NewlinesAppend(own + Render(lab, 1, kids, true), "\n");
    assert "\n"[..0] == "";
    assert Newlines("\n") == 1;
  }

  /** The places of everything below a root whose line starts at base. */
  function RootMarks(lab: Process -> string, base: nat, p: Process, kids: Forest): seq<Mark> {
    Marks(lab, base + (if |lab(p)| > CELL then |lab(p)| else CELL), 1, kids, true)
  }

  /** The labels of a root and of everything below it with children leave room for the
      branches; a root has one more column. */
  predicate RootFits(lab: Process -> string, p: Process, kids: Forest) {
    (kids != Empty ==> |lab(p)| <= 30) && InnerFit(lab, kids)
  }

  /** In the text of a root, printed at the start of a line, every process below the
      root stands at the column of its level, if and only if the labels of those with
      children fit. */
  lemma {:induction false} RootInPlaceIff(lab: Process -> string, text: string, done: string, p: Process, kids: Forest,
                                          after: string)
    requires text == done + RootText(lab, p, kids) + after
    requires Column(done) == 0 && '\n' !in lab(p) && NoBreaks(lab, kids)
    ensures AllInPlace(lab, text, RootMarks(lab, |done|, p, kids)) <==> RootFits(lab, p, kids)
  {
    var own := lab(p) + Fill('-', CELL - |lab(p)|);
    ColumnAppend(done, own);
    var inner := Render(lab, 1, kids, true);
    Regroup(done, own, inner);
    Regroup(done, own + inner, "\n");
    assert text == (done + own) + inner + ("\n" + after);
    assert RootMarks(lab, |done|, p, kids) == Marks(lab, |done + own|, 1, kids, true);
    KidsInPlaceIff(lab, text, done + own, 1, kids, inner, "\n" + after);
  }

  /** The level of a mark is the number of ancestors of its process. */
  lemma {:induction false} LevelIsDepth(lab: Process -> string, ps: seq<Process>, path: seq<int>, i: nat, base: nat,
                                        first: bool, m: Mark)
    returns (chain: seq<int>)
    requires Distinct(ps) && Chain(ps, path) && i <= |Children(ps, Last(path))|
    requires m in Marks(lab, base, |path|, Below(ps, path, i), first)
    ensures Chain(ps, chain) && Last(chain) == m.proc.pid && |chain| - 1 == m.level
    decreases Unmet(ps, path), |Children(ps, Last(path))| - i
  {
    var c := Children(ps, Last(path))[i];
    ChainExtends(ps, path, i);
    var next := path + [c.pid];
    var kids, rest := Below(ps, next, 0), Below(ps, path, i + 1);
    var at := base + LeadWidth(|path|, first);
    var down := at + 1 + |lab(c)| + LaneWidth(lab, c, kids);
    var after := down + Width(lab, |path| + 1, kids, true);
    MarksOfNode(lab, base, |path|, c, kids, rest, first, at, down, after);
    if m == Mark(c, |path|, at) {
      chain := next;
    } else if m in Marks(lab, down, |path| + 1, kids, true) {
      chain := LevelIsDepth(lab, ps, next, 0, down, true, m);
    } else {
      chain := LevelIsDepth(lab, ps, path, i + 1, after, false, m);
    }
  }
}
