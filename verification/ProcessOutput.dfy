/** The layout of everything pstree prints, over all roots. */
module ProcessOutput {
  import opened ProcessDrawing
  import opened ProcessForest
  import opened ProcessLayout
  import opened ProcessTable
  import opened Texts

  /** A root with the forest below it. */
  datatype Rooted = Rooted(root: Process, kids: Forest)

  function RootedOf(ps: seq<Process>, n: nat): (rs: seq<Rooted>)
    requires Distinct(ps) && n <= |Children(ps, 0)|
    ensures |rs| == n
  {
    if n == 0 then []
    else
      RootChain(ps, n - 1);
      var root := Children(ps, 0)[n - 1];
      RootedOf(ps, n - 1) + [Rooted(root, Below(ps, [root.pid], 0))]
  }

  function Whole(lab: Process -> string, rs: seq<Rooted>): string {
    if rs == [] then ""
    else Whole(lab, rs[..|rs| - 1]) + RootText(lab, rs[|rs| - 1].root, rs[|rs| - 1].kids)
  }

  lemma {:induction false} WholeSnoc(lab: Process -> string, rs: seq<Rooted>, r: Rooted)
    ensures Whole(lab, rs + [r]) == Whole(lab, rs) + RootText(lab, r.root, r.kids)
  {
    assert (rs + [r])[..|rs + [r]| - 1] == rs;
  }

  /** What main prints is the text of the roots one after the other. */
  lemma {:induction false} PrintedIsWhole(lab: Process -> string, ps: seq<Process>, n: nat)
    requires Distinct(ps) && n <= |Children(ps, 0)|
    ensures Printed(lab, ps, n) == Whole(lab, RootedOf(ps, n))
  {
    if n > 0 {
      PrintedIsWhole(lab, ps, n - 1);
      RootChain(ps, n - 1);
      var root := Children(ps, 0)[n - 1];
      WholeSnoc(lab, RootedOf(ps, n - 1), Rooted(root, Below(ps, [root.pid], 0)));
    }
  }

  /** No label has a newline in it. */
  predicate OnOneLine(lab: Process -> string, r: Rooted) {
    '\n' !in lab(r.root) && NoBreaks(lab, r.kids)
  }

  lemma {:induction false} EndsLine(lab: Process -> string, rs: seq<Rooted>)
    ensures Column(Whole(lab, rs)) == 0
  {
    if rs != [] {
      var text := Whole(lab, rs);
      assert text[|text| - 1] == '\n';
    }
  }

  /** The output is what is printed before a root, the root's text, and some more. */
  lemma {:induction false} WholeSplits(lab: Process -> string, rs: seq<Rooted>, k: nat)
    returns (done: string, own: string, after: string)
    requires k < |rs|
    ensures done == Whole(lab, rs[..k]) && own == RootText(lab, rs[k].root, rs[k].kids)
    ensures Whole(lab, rs) == done + own + after
  {
    var n := |rs| - 1;
    var last := RootText(lab, rs[n].root, rs[n].kids);
    if k == n {
      done, own, after := Whole(lab, rs[..k]), last, "";
    } else {
      done, own, after := WholeSplits(lab, rs[..n], k);
      assert rs[..n][..k] == rs[..k];
      Regroup(done + own, after, last);
      after := after + last;
    }
  }

  ghost predicate TreeInPlace(lab: Process -> string, rs: seq<Rooted>, k: nat)
    requires k < |rs|
  {
    AllInPlace(lab, Whole(lab, rs), RootMarks(lab, |Whole(lab, rs[..k])|, rs[k].root, rs[k].kids))
  }

  /** In the whole output every process at depth L below a root stands at column 30 L, if and
      only if the labels of that root and of those with children below it fit, whatever the
      labels below other roots are. */
  lemma {:induction false} TreeInPlaceIff(lab: Process -> string, rs: seq<Rooted>, k: nat)
    requires k < |rs| && OnOneLine(lab, rs[k])
    ensures TreeInPlace(lab, rs, k) <==> RootFits(lab, rs[k].root, rs[k].kids)
  {
    var done, own, after := WholeSplits(lab, rs, k);
    EndsLine(lab, rs[..k]);
    RootInPlaceIff(lab, Whole(lab, rs), done, rs[k].root, rs[k].kids, after);
  }

  /** A root's text: its label, dashes up to column 30, the forest below it, and a line end. */
  ghost predicate RootDrawn(lab: Process -> string, text: string, base: nat, r: Rooted) {
    var end := base + |lab(r.root)|;
    var down := if end > base + 30 then end else base + 30;
    && down + Width(lab, 1, r.kids, true) < |text|
    && text[base..end] == lab(r.root) && AllAre(text, '-', end, down)
    && Drawn(lab, text, down, 1, r.kids, true)
    && text[down + Width(lab, 1, r.kids, true)] == '\n'
  }

  lemma {:induction false} RootPieces(text: string, done: string, name: string, lane: string, inner: string,
                                      after: string)
    requires text == done + (name + lane + inner + "\n") + after
    ensures var down := done + name + lane;
            && text == down + inner + ("\n" + after) && text == (done + name) + lane + (inner + "\n" + after)
            && |down| + |inner| < |text| && text[|down| + |inner|] == '\n' && text[|done|..|done| + |name|] == name
  {
    assert text == done + name + (lane + inner + "\n" + after);
  }

  lemma {:induction false} RootIsDrawn(lab: Process -> string, text: string, done: string, r: Rooted, after: string)
    requires text == done + RootText(lab, r.root, r.kids) + after
    ensures RootDrawn(lab, text, |done|, r)
  {
    var name, lane, inner := lab(r.root), Fill('-', CELL - |lab(r.root)|), Render(lab, 1, r.kids, true);
    RootPieces(text, done, name, lane, inner, after);
    StretchIs(done + name, lane, inner + "\n" + after, '-');
    LayoutIsDrawn(lab, text, done + name + lane, 1, r.kids, true, "\n" + after);
    WidthIs(lab, 1, r.kids, true);
  }

  /** In the whole output nothing but dashes, spaces and line ends stands between the labels,
      whatever the labels are. */
  lemma {:induction false} OutputIsDrawn(lab: Process -> string, rs: seq<Rooted>, k: nat)
    requires k < |rs|
    ensures RootDrawn(lab, Whole(lab, rs), |Whole(lab, rs[..k])|, rs[k])
  {
    var done, own, after := WholeSplits(lab, rs, k);
    RootIsDrawn(lab, Whole(lab, rs), done, rs[k], after);
  }

  function TotalLeaves(rs: seq<Rooted>): nat {
    if rs == [] then 0 else TotalLeaves(rs[..|rs| - 1]) + Leaves(rs[|rs| - 1].kids)
  }

  /** The output has as many lines as the trees of all roots have leaves. */
  lemma {:induction false} LinesAreLeaves(lab: Process -> string, rs: seq<Rooted>)
    requires forall j :: 0 <= j < |rs| ==> OnOneLine(lab, rs[j]) && rs[j].kids != Empty
    ensures Newlines(Whole(lab, rs)) == TotalLeaves(rs)
  {
    if rs != [] {
      var n := |rs| - 1;
      LinesAreLeaves(lab, rs[..n]);
      assert OnOneLine(lab, rs[n]);
      RootNewlines(lab, rs[n].root, rs[n].kids);
      NewlinesAppend(Whole(lab, rs[..n]), RootText(lab, rs[n].root, rs[n].kids));
    }
  }
}
