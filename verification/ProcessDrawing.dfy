/** What stands between the labels of a printed process tree. */
module ProcessDrawing {
  import opened ProcessForest
  import opened ProcessLayout

  /** The text has this character throughout a stretch. */
  predicate AllAre(text: string, c: char, lo: int, hi: int) {
    0 <= lo <= hi <= |text| && forall i :: lo <= i < hi ==> text[i] == c
  }

  /** A later sibling stands on a new line behind spaces.  A dash comes before the label, and
      dashes behind it up to where the first child starts. */
  ghost predicate NodeDrawn(text: string, name: string, base: nat, at: nat, down: nat, first: bool) {
    && base <= at && at + 1 + |name| <= down <= |text|
    && (if first then at == base else base < at && text[base] == '\n' && AllAre(text, ' ', base + 1, at))
    && text[at] == '-' && text[at + 1..at + 1 + |name|] == name
    && AllAre(text, '-', at + 1 + |name|, down)
  }

  /** From base on the text is the forest. */
  ghost predicate Drawn(lab: Process -> string, text: string, base: nat, level: nat, f: Forest, first: bool)
    decreases f
  {
    match f
    case Empty => true
    case Trees(Node(p, kids), rest) =>
      var at := base + LeadWidth(level, first);
      var down := at + 1 + |lab(p)| + LaneWidth(lab, p, kids);
      && NodeDrawn(text, lab(p), base, at, down, first)
      && Drawn(lab, text, down, level + 1, kids, true)
      && Drawn(lab, text, down + Width(lab, level + 1, kids, true), level, rest, false)
  }

  /** The forest stands in the text behind what was printed before it. */
  ghost predicate DrawnBehind(lab: Process -> string, text: string, before: string, level: nat, f: Forest, first: bool)
  {
    Drawn(lab, text, |before|, level, f, first)
  }

  lemma {:induction false} StretchIs(before: string, piece: string, after: string, c: char)
    requires forall i :: 0 <= i < |piece| ==> piece[i] == c
    ensures AllAre(before + piece + after, c, |before|, |before| + |piece|)
  {
    var text := before + piece + after;
    forall i | |before| <= i < |before| + |piece| ensures text[i] == c {
      assert text[i] == piece[i - |before|];
    }
  }

  lemma {:induction false} LeadDrawn(before: string, level: nat, after: string)
    ensures var text := before + Lead(level, false) + after;
            && text[|before|] == '\n'
            && AllAre(text, ' ', |before| + 1, |before| + LeadWidth(level, false))
  {
    var spaces := Fill(' ', CELL * level);
    StretchIs(before + "\n", spaces, after, ' ');
    assert before + Lead(level, false) + after == (before + "\n") + spaces + after;
  }

  lemma {:induction false} OwnDrawn(start: string, name: string, lane: string, after: string)
    requires forall i :: 0 <= i < |lane| ==> lane[i] == '-'
    ensures var text := start + ("-" + name + lane) + after;
            var end := |start| + 1 + |name|;
            text[|start|] == '-' && text[|start| + 1..end] == name && AllAre(text, '-', end, end + |lane|)
  {
    var text := start + ("-" + name + lane) + after;
    StretchIs(start + "-" + name, lane, after, '-');
    assert text == start + "-" + name + lane + after;
  }

  lemma {:induction false} Regroups(down: string, inner: string, rest: string, start: string, own: string)
    requires down == start + own
    ensures down + inner + rest == start + own + (inner + rest) == start + (own + (inner + rest))
  {
  }

  /** The first process of a printed forest, and where its children's and its later siblings'
      texts begin. */
  lemma {:induction false} FirstDrawn(lab: Process -> string, text: string, before: string, level: nat, p: Process,
                                      kids: Forest, first: bool, inner: string, outer: string, after: string)
    returns (down: string)
    requires text == before + (Lead(level, first) + "-" + lab(p) + Lane(lab, p, kids) + inner + outer) + after
    ensures |down| == |before| + LeadWidth(level, first) + 1 + |lab(p)| + LaneWidth(lab, p, kids)
    ensures NodeDrawn(text, lab(p), |before|, |before| + LeadWidth(level, first), |down|, first)
    ensures text == down + inner + (outer + after) && text == (down + inner) + outer + after
  {
    var lead, lane := Lead(level, first), Lane(lab, p, kids);
    var own := "-" + lab(p) + lane;
    down := (before + lead) + own;
    Pieces(text, before, lead, lab(p), lane, inner, outer, after);
    Regroups(down, inner, outer + after, before + lead, own);
    OwnDrawn(before + lead, lab(p), lane, inner + (outer + after));
    if !first {
      LeadDrawn(before, level, own + (inner + (outer + after)));
    }
  }

  /** Nothing but dashes, spaces and line breaks stands between the labels, wherever the text
      of a forest stands in the output and whatever its labels are. */
  lemma {:induction false} LayoutIsDrawn(lab: Process -> string, text: string, before: string, level: nat, f: Forest,
                                         first: bool, after: string)
    requires text == before + Render(lab, level, f, first) + after
    ensures DrawnBehind(lab, text, before, level, f, first)
    decreases f
  {
    match f
    case Empty =>
    case Trees(Node(p, kids), rest) =>
      var inner, outer := Render(lab, level + 1, kids, true), Render(lab, level, rest, false);
      var down := FirstDrawn(lab, text, before, level, p, kids, first, inner, outer, after);
      WidthIs(lab, level + 1, kids, true);
      LayoutIsDrawn(lab, text, down, level + 1, kids, true, outer + after);
      LayoutIsDrawn(lab, text, down + inner, level, rest, false, after);
      DrawnOfNode(lab, text, before, level, p, kids, rest, first, down, down + inner);
  }

  lemma {:induction false} DrawnOfNode(lab: Process -> string, text: string, before: string, level: nat, p: Process,
                                       kids: Forest, rest: Forest, first: bool, down: string, next: string)
    requires |down| == |before| + LeadWidth(level, first) + 1 + |lab(p)| + LaneWidth(lab, p, kids)
    requires |next| == |down| + Width(lab, level + 1, kids, true)
    requires NodeDrawn(text, lab(p), |before|, |before| + LeadWidth(level, first), |down|, first)
    requires DrawnBehind(lab, text, down, level + 1, kids, true) && DrawnBehind(lab, text, next, level, rest, false)
    ensures DrawnBehind(lab, text, before, level, Trees(Node(p, kids), rest), first)
  {
  }
}
