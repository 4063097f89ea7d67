/** What the greedy lines are worth: they partition the text, fit, and are as few as possible. */
module LineBreaking {
  import opened Wrappers
  import opened FixedPoint
  import opened FontMetrics
  import opened Utf8
  import opened TextLayout

  predicate BreakAfter(cps: seq<Scalar>, k: nat) {
    0 < k <= |cps| && IsBreakOpportunity(Glyph(cps[k - 1]))
  }

  ghost predicate NoHardBreak(cps: seq<Scalar>, s: nat, e: nat) {
    s <= e <= |cps| && forall k :: s <= k < e ==> !IsHardBreak(cps[k])
  }

  ghost predicate NoBreakIn(cps: seq<Scalar>, s: nat, e: nat) {
    forall k :: s < k <= e ==> !BreakAfter(cps, k)
  }

  // ----- What one scan finds -----

  /** A glyph may end a line that is too wide only if the line had no width before it. */
  ghost predicate Settable(c: Context, cps: seq<Scalar>, s: nat, e: nat)
    requires s < e <= |cps|
  {
    var before, w := Width(c, cps, s, e - 1), Width(c, cps, s, e);
    && !IsHardBreak(cps[e - 1])
    && before.Success? && w.Success?
    && (!c.wraps || w.value <= c.limit || before.value == 0)
  }

  /** `cps[s..e]` can stand on one line, and so can each of its beginnings. */
  ghost predicate Sets(c: Context, cps: seq<Scalar>, s: nat, e: nat) {
    s <= e <= |cps| && forall k :: s < k <= e ==> Settable(c, cps, s, k)
  }

  /** The glyph at `j` is too much for the line from `s`. */
  ghost predicate Blocks(c: Context, cps: seq<Scalar>, s: nat, j: nat) {
    && s < j < |cps| && !IsHardBreak(cps[j]) && c.wraps
    && var before, after := Width(c, cps, s, j), Width(c, cps, s, j + 1);
       before.Success? && after.Success? && before.value > 0 && after.value > c.limit
  }

  /** `cut` is the last break opportunity up to `j`, or `j` itself when there is none. */
  ghost predicate LastBreakUpTo(cps: seq<Scalar>, s: nat, cut: nat, j: nat) {
    && s < cut <= j
    && NoBreakIn(cps, cut, j)
    && (BreakAfter(cps, cut) || (cut == j && NoBreakIn(cps, s, j)))
  }

  ghost predicate Remembers(c: Context, cps: seq<Scalar>, s: nat, i: nat, last: Option<Break>)
    requires s <= i <= |cps|
  {
    match last
    case None => NoBreakIn(cps, s, i)
    case Some(b) =>
      && s < b.at <= i && BreakAfter(cps, b.at) && NoBreakIn(cps, b.at, i)
      && Width(c, cps, s, b.at) == Success(b.width)
  }

  /** What the stop of a scan says about the line; `j` is the glyph that blocked it, if one did. */
  ghost predicate StopMeans(c: Context, cps: seq<Scalar>, s: nat, stop: Stop, j: nat) {
    match stop
    case EndOfText(w) => Sets(c, cps, s, |cps|) && Width(c, cps, s, |cps|) == Success(w)
    case HardEnd(end, next, w) =>
      && end < |cps| && Sets(c, cps, s, end) && Width(c, cps, s, end) == Success(w)
      && IsHardBreak(cps[end]) && next == AfterHardBreak(cps, end)
    case Wrap(cut, w) =>
      && Sets(c, cps, s, j) && Blocks(c, cps, s, j)
      && LastBreakUpTo(cps, s, cut, j) && Width(c, cps, s, cut) == Success(w)
    case Bad(error) => true
  }

  lemma {:induction false} ScanMeans(c: Context, cps: seq<Scalar>, s: nat, i: nat, w: int, last: Option<Break>)
    returns (j: nat)
    requires Sets(c, cps, s, i) && Width(c, cps, s, i) == Success(w)
    requires Remembers(c, cps, s, i, last)
    ensures StopMeans(c, cps, s, Scan(c, cps, s, i, w, last), j)
    decreases |cps| - i
  {
    j := i;
    if i < |cps| && !IsHardBreak(cps[i]) {
      var candidate := Candidate(c, cps, s, i, w);
      assert Width(c, cps, s, i + 1) == candidate;
      if candidate.Success? && !(c.wraps && candidate.value > c.limit && w > 0) {
        assert Settable(c, cps, s, i + 1);
        var breaks := IsBreakOpportunity(Glyph(cps[i]));
        assert BreakAfter(cps, i + 1) <==> breaks;
        j := ScanMeans(c, cps, s, i + 1, candidate.value,
                       if breaks then Some(Break(i + 1, candidate.value)) else last);
      }
    }
  }

  lemma ScanLineMeans(c: Context, cps: seq<Scalar>, s: nat) returns (j: nat)
    requires s <= |cps|
    ensures StopMeans(c, cps, s, ScanLine(c, cps, s), j)
  {
    j := ScanMeans(c, cps, s, s, 0, None);
  }

  // ----- The lines partition the text and fit -----

  /** A line shows no hard break and stops at one, at the end of the text, after a break
      opportunity, or inside a stretch that has none. */
  ghost predicate WellCut(cps: seq<Scalar>, line: Line) {
    && line.start <= line.end <= line.next <= |cps| && NoHardBreak(cps, line.start, line.end)
    && if line.next == line.end then
         || line.end == |cps|
         || (line.start < line.end
             && (BreakAfter(cps, line.end) || NoBreakIn(cps, line.start, line.end)))
       else
         && IsHardBreak(cps[line.end])
         && line.next == line.end + (if [CR, LF] <= cps[line.end..] then 2 else 1)
  }

  /** Within the limit, unless the last glyph was added while the line had no width. */
  ghost predicate Fits(c: Context, cps: seq<Scalar>, line: Line)
    requires line.start <= line.end <= |cps|
  {
    && Width(c, cps, line.start, line.end) == Success(line.width)
    && (|| !c.wraps || line.width <= c.limit
        || (line.start < line.end && Width(c, cps, line.start, line.end - 1) == Success(0)))
  }

  /** Each line starts where the one before it ends, from `s` to the end of the text. */
  ghost predicate Chained(lines: seq<Line>, s: nat, n: nat) {
    && lines != [] && lines[0].start == s && lines[|lines| - 1].end == lines[|lines| - 1].next == n
    && forall k :: 0 <= k < |lines| - 1 ==> lines[k].next == lines[k + 1].start
  }

  lemma SetsHasNoHardBreak(c: Context, cps: seq<Scalar>, s: nat, e: nat)
    requires Sets(c, cps, s, e)
    ensures NoHardBreak(cps, s, e)
    ensures s < e ==> Settable(c, cps, s, e)
  {
    forall k | s <= k < e ensures !IsHardBreak(cps[k]) {
      assert Settable(c, cps, s, k + 1);
    }
  }

  /** The lines of a successful layout cut the text into consecutive pieces, and each fits. */
  lemma {:induction false} LayoutPartitions(c: Context, cps: seq<Scalar>, s: nat, number: nat)
    requires s <= |cps| && c.Valid() && Layout(c, cps, s, number).Success?
    ensures var lines := Layout(c, cps, s, number).value;
            && Chained(lines, s, |cps|)
            && forall line <- lines :: WellCut(cps, line) && Fits(c, cps, line)
    decreases |cps| - s
  {
    var j := ScanLineMeans(c, cps, s);
    var lines := Layout(c, cps, s, number).value;
    FirstLine(c, cps, s, number, j);
    if |lines| > 1 {
      LayoutPartitions(c, cps, lines[0].next, number + 1);
      assert lines == [lines[0]] + Layout(c, cps, lines[0].next, number + 1).value;
    }
  }

  function LineOf(cps: seq<Scalar>, s: nat, stop: Stop): Line
    requires !stop.Bad?
  {
    match stop
    case EndOfText(w) => Line(s, |cps|, |cps|, w)
    case HardEnd(end, next, w) => Line(s, end, next, w)
    case Wrap(cut, w) => Line(s, cut, cut, w)
  }

  lemma StopCutsWell(c: Context, cps: seq<Scalar>, s: nat, stop: Stop, j: nat)
    requires s <= |cps| && c.Valid() && StopMeans(c, cps, s, stop, j) && !stop.Bad?
    ensures WellCut(cps, LineOf(cps, s, stop))
  {
    match stop
    case EndOfText(w) => SetsHasNoHardBreak(c, cps, s, |cps|);
    case HardEnd(end, next, w) => SetsHasNoHardBreak(c, cps, s, end);
    case Wrap(cut, w) => SetsHasNoHardBreak(c, cps, s, j);
  }

  lemma SetFits(c: Context, cps: seq<Scalar>, line: Line)
    requires c.Valid() && Sets(c, cps, line.start, line.end)
    requires Width(c, cps, line.start, line.end) == Success(line.width)
    ensures Fits(c, cps, line)
  {
    SetsHasNoHardBreak(c, cps, line.start, line.end);
  }

  lemma StopFits(c: Context, cps: seq<Scalar>, s: nat, stop: Stop, j: nat)
    requires s <= |cps| && c.Valid() && StopMeans(c, cps, s, stop, j) && !stop.Bad?
    ensures var line := LineOf(cps, s, stop); line.start <= line.end <= |cps| && Fits(c, cps, line)
  {
    SetFits(c, cps, LineOf(cps, s, stop));
  }

  lemma FirstLine(c: Context, cps: seq<Scalar>, s: nat, number: nat, j: nat)
    requires s <= |cps| && c.Valid() && Layout(c, cps, s, number).Success?
    requires StopMeans(c, cps, s, ScanLine(c, cps, s), j)
    ensures var lines := Layout(c, cps, s, number).value;
            && lines != [] && lines[0].start == s
            && WellCut(cps, lines[0]) && Fits(c, cps, lines[0])
            && if |lines| == 1 then lines[0].end == lines[0].next == |cps|
               else s < lines[0].next <= |cps|
                    && Layout(c, cps, s, number)
                       == Prepend([lines[0]], Layout(c, cps, lines[0].next, number + 1))
  {
    StopCutsWell(c, cps, s, ScanLine(c, cps, s), j);
    StopFits(c, cps, s, ScanLine(c, cps, s), j);
    match ScanLine(c, cps, s)
    case EndOfText(w) =>
    case HardEnd(end, next, w) => LayoutNotEmpty(c, cps, next, number + 1);
    case Wrap(cut, w) => LayoutNotEmpty(c, cps, cut, number + 1);
    case Bad(error) =>
  }

  lemma LayoutNotEmpty(c: Context, cps: seq<Scalar>, s: nat, number: nat)
    requires s <= |cps|
    ensures Layout(c, cps, s, number).Success? ==> Layout(c, cps, s, number).value != []
  {
  }
}
