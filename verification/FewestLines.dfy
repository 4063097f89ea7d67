/** For families without kerning and without negative advances: the greedy loop uses the fewest lines
    of any way to cut the text, and a wider limit never costs a line. */
module FewestLines {
  import opened Wrappers
  import opened FixedPoint
  import opened FontMetrics
  import opened Utf8
  import opened TextLayout
  import opened LineBreaking

  /** Every glyph of the text has an advance of its own, and none a negative one. */
  ghost predicate Plain(c: Context, cps: seq<Scalar>) {
    && c.Valid() && c.family.kerning == []
    && forall k :: 0 <= k < |cps| && !IsHardBreak(cps[k]) ==>
         BaseAdvance(c, cps[k]).Success? && BaseAdvance(c, cps[k]).value >= 0
  }

  /** The advances of `cps[s..e]` added up, without the 64-bit check. */
  function Sum(c: Context, cps: seq<Scalar>, s: nat, e: nat): int
    requires s <= e <= |cps|
    decreases e - s
  {
    if s == e then 0 else Sum(c, cps, s, e - 1) + Cost(c, cps[e - 1])
  }

  function Cost(c: Context, cp: Scalar): int {
    if !IsHardBreak(cp) && BaseAdvance(c, cp).Success? then BaseAdvance(c, cp).value else 0
  }

  lemma {:induction false} SumSplits(c: Context, cps: seq<Scalar>, s: nat, t: nat, e: nat)
    requires Plain(c, cps) && s <= t <= e <= |cps|
    ensures Sum(c, cps, s, e) == Sum(c, cps, s, t) + Sum(c, cps, t, e)
    ensures 0 <= Sum(c, cps, s, t)
    decreases e - s
  {
    if t < e {
      SumSplits(c, cps, s, t, e - 1);
    } else if s < t {
      SumSplits(c, cps, s, t - 1, t - 1);
    }
  }

  lemma KernlessAdvance(c: Context, cps: seq<Scalar>, previous: Option<nat>, k: nat)
    requires Plain(c, cps) && k < |cps| && !IsHardBreak(cps[k])
    ensures GlyphAdvance(c, previous, cps[k]) == BaseAdvance(c, cps[k])
  {
    HalfScalesToZero(c.fontSize, c.family.unitsPerEm);
  }

  lemma HalfScalesToZero(fontSize: int, unitsPerEm: nat)
    requires unitsPerEm > 0
    ensures ScaleDesignUnits(0, fontSize, unitsPerEm) == Some(0)
  {
    assert 0 * fontSize == 0;
    NearestQuotient(0, unitsPerEm);
    QuotientBounds(unitsPerEm / 2, unitsPerEm);
    MulLess(unitsPerEm / 2 / unitsPerEm, 1, unitsPerEm);
  }

  /** What a sum of advances is as a width: itself, where it fits 64 bits. */
  function AsWidth(sum: int): Metric {
    if sum <= INT64_MAX then Success(sum) else Failure(LineWidthOverflow)
  }

  /** One more glyph adds its cost. */
  lemma CandidateAdds(c: Context, cps: seq<Scalar>, s: nat, k: nat, width: nat)
    requires Plain(c, cps) && s <= k < |cps| && !IsHardBreak(cps[k]) && width <= INT64_MAX
    ensures Candidate(c, cps, s, k, width) == AsWidth(width + Cost(c, cps[k]))
  {
    KernlessAdvance(c, cps, Previous(cps, s, k), k);
  }

  lemma NextIsSum(c: Context, cps: seq<Scalar>, s: nat, k: nat, sum: nat, next: int)
    requires Plain(c, cps) && s <= k < |cps| && NoHardBreak(cps, s, k + 1) && Width(c, cps, s, k) == AsWidth(sum)
    requires next == sum + Cost(c, cps[k])
    ensures Width(c, cps, s, k + 1) == AsWidth(next)
  {
    if sum <= INT64_MAX {
      CandidateAdds(c, cps, s, k, sum);
    }
  }

  /** Where the sum fits 64 bits, it is the width; where it does not, there is no width. */
  lemma {:induction false} WidthIsSum(c: Context, cps: seq<Scalar>, s: nat, e: nat)
    requires Plain(c, cps) && NoHardBreak(cps, s, e)
    ensures Width(c, cps, s, e) == AsWidth(Sum(c, cps, s, e))
    decreases e - s
  {
    if s < e {
      var k := e - 1;
      WidthIsSum(c, cps, s, k);
      SumSplits(c, cps, s, k, k);
      NextIsSum(c, cps, s, k, Sum(c, cps, s, k), Sum(c, cps, s, e));
    }
  }

  // ----- Ways to cut a text -----

  /** The line is cut as the rules allow and is within `limit`, or has no width before its last
      glyph. */
  ghost predicate Admissible(c: Context, cps: seq<Scalar>, limit: int, line: Line) {
    && WellCut(cps, line)
    && (|| Sum(c, cps, line.start, line.end) <= limit
        || (line.start < line.end && Sum(c, cps, line.start, line.end - 1) == 0))
  }

  /** A way to cut `cps[s..]` into lines within `limit`: the last line ends the text. */
  ghost predicate IsCutting(c: Context, cps: seq<Scalar>, limit: int, lines: seq<Line>, s: nat) {
    && lines != [] && lines[0].start == s && Admissible(c, cps, limit, lines[0])
    && if |lines| == 1 then lines[0].end == lines[0].next == |cps|
       else s < lines[0].next && IsCutting(c, cps, limit, lines[1..], lines[0].next)
  }

  lemma SumWithin(c: Context, cps: seq<Scalar>, s: nat, t: nat, k: nat, e: nat)
    requires Plain(c, cps) && s <= t <= k <= e <= |cps|
    ensures Sum(c, cps, t, k) <= Sum(c, cps, s, e)
  {
    SumSplits(c, cps, s, t, e);
    SumSplits(c, cps, t, k, e);
    SumSplits(c, cps, k, e, e);
  }

  lemma HardBreakIsOutside(cps: seq<Scalar>, s: nat, e: nat, k: nat)
    requires NoHardBreak(cps, s, e) && s <= k < |cps| && IsHardBreak(cps[k])
    ensures e <= k
  {
  }

  /** A glyph that blocks the line from `t` lies past the end of every admissible line that
      covers `t`, and that line does not end at a hard break. */
  lemma BlockIsPast(c: Context, cps: seq<Scalar>, limit: int, line: Line, t: nat, j: nat)
    requires Plain(c, cps) && limit <= c.limit && Admissible(c, cps, limit, line)
    requires line.start <= t <= line.end
    requires NoHardBreak(cps, t, j) && Blocks(c, cps, t, j)
    ensures line.end <= j && line.next == line.end
  {
    assert NoHardBreak(cps, t, j + 1);
    WidthIsSum(c, cps, t, j + 1);
    if j < line.end {
      WidthIsSum(c, cps, t, j);
      SumWithin(c, cps, line.start, t, j + 1, line.end);
      SumWithin(c, cps, line.start, t, j, line.end - 1);
    } else if line.next != line.end {
      assert false;
    }
  }

  /** The heart of the greedy argument: a greedy line that starts no earlier than some
      admissible line, but before its end, reaches at least as far. */
  lemma ReachesAsFar(c: Context, cps: seq<Scalar>, limit: int, line: Line, t: nat)
    requires Plain(c, cps) && limit <= c.limit && Admissible(c, cps, limit, line)
    requires line.start <= t < line.next
    ensures match ScanLine(c, cps, t)
            case EndOfText(_) => true
            case HardEnd(_, next, _) => line.next <= next
            case Wrap(cut, _) => line.next <= cut
            case Bad(_) => true
  {
    var j := ScanLineMeans(c, cps, t);
    match ScanLine(c, cps, t)
    case EndOfText(_) =>
    case HardEnd(end, next, _) =>
      if t <= line.end {
        HardBreakIsOutside(cps, t, line.end, end);
      }
    case Wrap(cut, _) =>
      SetsHasNoHardBreak(c, cps, t, j);
      if t <= line.end {
        BlockIsPast(c, cps, limit, line, t, j);
      }
    case Bad(_) =>
  }

  /** A layout is its first line and the layout of the rest, unless a wrap meets the line limit. */
  lemma OneLineMore(c: Context, cps: seq<Scalar>, t: nat, number: nat)
    requires t <= |cps| && !ScanLine(c, cps, t).Bad? && !ScanLine(c, cps, t).EndOfText?
    ensures var stop := ScanLine(c, cps, t);
            var laid, rest := Layout(c, cps, t, number), Layout(c, cps, StopsAt(stop), number + 1);
            && (laid.Success? ==> rest.Success? && |laid.value| == 1 + |rest.value|)
            && (rest.Success? && number + 1 <= c.maxLines ==> laid.Success?)
  {
  }

  function StopsAt(stop: Stop): nat
    requires !stop.Bad? && !stop.EndOfText?
  {
    if stop.HardEnd? then stop.next else stop.cut
  }

  /** The greedy layout from `t` needs no more lines than any cutting from an `s` before it. */
  lemma {:induction false} StaysAhead(
    c: Context, cps: seq<Scalar>, limit: int, cutting: seq<Line>, s: nat, t: nat, number: nat)
    requires Plain(c, cps) && limit <= c.limit && IsCutting(c, cps, limit, cutting, s)
    requires s <= t <= |cps|
    ensures var laid := Layout(c, cps, t, number);
            && (laid.Success? ==> |laid.value| <= |cutting|)
            && (Sum(c, cps, 0, |cps|) <= INT64_MAX && number + |cutting| <= c.maxLines + 1
                ==> laid.Success?)
    decreases |cutting|
  {
    var line := cutting[0];
    if t >= line.next && |cutting| > 1 {
      StaysAhead(c, cps, limit, cutting[1..], line.next, t, number);
    } else {
      var j := ScanLineMeans(c, cps, t);
      var stop := ScanLine(c, cps, t);
      if t < line.next {
        ReachesAsFar(c, cps, limit, line, t);
      }
      if stop.Bad? {
        BadMeansTooWide(c, cps, t);
      } else if !stop.EndOfText? {
        OneLineMore(c, cps, t, number);
        if |cutting| == 1 {
          SingleLineIsEnough(c, cps, limit, line, t);
        } else {
          StaysAhead(c, cps, limit, cutting[1..], line.next, StopsAt(stop), number + 1);
        }
      }
    }
  }

  /** Without kerning the only error a scan can meet is a sum over 64 bits. */
  lemma BadMeansTooWide(c: Context, cps: seq<Scalar>, t: nat)
    requires Plain(c, cps) && t <= |cps| && ScanLine(c, cps, t).Bad?
    ensures Sum(c, cps, 0, |cps|) > INT64_MAX
  {
    var e := ScanFails(c, cps, t, t, 0, None);
    SumWithin(c, cps, 0, t, e, |cps|);
  }

  lemma {:induction false} ScanFails(
    c: Context, cps: seq<Scalar>, s: nat, i: nat, w: int, last: Option<Break>) returns (e: nat)
    requires Plain(c, cps) && NoHardBreak(cps, s, i) && Width(c, cps, s, i) == Success(w)
    requires last.Some? ==> s < last.value.at <= i
    requires Scan(c, cps, s, i, w, last).Bad?
    ensures s <= e <= |cps| && Sum(c, cps, s, e) > INT64_MAX
    decreases |cps| - i
  {
    e := i + 1;
    var candidate := Candidate(c, cps, s, i, w);
    assert Width(c, cps, s, e) == candidate;
    WidthIsSum(c, cps, s, e);
    if candidate.Success? {
      e := ScanFails(c, cps, s, e, candidate.value,
                     if IsBreakOpportunity(Glyph(cps[i])) then Some(Break(i + 1, candidate.value)) else last);
    }
  }

  /** From inside an admissible last line the scan reaches the end of the text. */
  lemma SingleLineIsEnough(c: Context, cps: seq<Scalar>, limit: int, line: Line, t: nat)
    requires Plain(c, cps) && limit <= c.limit && Admissible(c, cps, limit, line)
    requires line.start <= t <= line.end == line.next == |cps|
    ensures !ScanLine(c, cps, t).HardEnd? && !ScanLine(c, cps, t).Wrap?
  {
    var j := ScanLineMeans(c, cps, t);
    match ScanLine(c, cps, t)
    case EndOfText(_) =>
    case HardEnd(end, _, _) => HardBreakIsOutside(cps, t, line.end, end);
    case Wrap(cut, _) =>
      SetsHasNoHardBreak(c, cps, t, j);
      BlockIsPast(c, cps, limit, line, t, j);
    case Bad(_) =>
  }

  // ----- The two theorems -----

  /** The fewest lines: no way to cut the text within the limit has fewer lines than the greedy
      layout, and if some way has no more than the line limit allows, the layout succeeds. */
  lemma GreedyIsOptimal(c: Context, cps: seq<Scalar>, cutting: seq<Line>)
    requires Plain(c, cps) && IsCutting(c, cps, c.limit, cutting, 0)
    ensures var laid := Layout(c, cps, 0, 1);
            && (laid.Success? ==> |laid.value| <= |cutting|)
            && (Sum(c, cps, 0, |cps|) <= INT64_MAX && |cutting| <= c.maxLines ==> laid.Success?)
  {
    StaysAhead(c, cps, c.limit, cutting, 0, 0, 1);
  }

  /** The greedy lines are themselves such a way. */
  lemma {:induction false} GreedyIsCutting(c: Context, cps: seq<Scalar>, s: nat, number: nat)
    requires Plain(c, cps) && s <= |cps| && Layout(c, cps, s, number).Success?
    requires c.wraps || c.limit == INT64_MAX
    ensures IsCutting(c, cps, c.limit, Layout(c, cps, s, number).value, s)
    decreases |cps| - s
  {
    var j := ScanLineMeans(c, cps, s);
    FirstLine(c, cps, s, number, j);
    var lines := Layout(c, cps, s, number).value;
    FittingIsAdmissible(c, cps, lines[0]);
    if |lines| > 1 {
      GreedyIsCutting(c, cps, lines[0].next, number + 1);
      assert lines[1..] == Layout(c, cps, lines[0].next, number + 1).value;
    }
  }

  lemma FittingIsAdmissible(c: Context, cps: seq<Scalar>, line: Line)
    requires Plain(c, cps) && WellCut(cps, line) && Fits(c, cps, line)
    requires c.wraps || c.limit == INT64_MAX
    ensures Admissible(c, cps, c.limit, line)
  {
    WidthIsSum(c, cps, line.start, line.end);
    if line.start < line.end {
      assert NoHardBreak(cps, line.start, line.end - 1);
      WidthIsSum(c, cps, line.start, line.end - 1);
      SumSplits(c, cps, line.start, line.end - 1, line.end);
    }
  }

  /** Lines that stop short of a hard break, the last line apart, leave room for one more. */
  ghost predicate WrapsWithin(lines: seq<Line>, number: nat, maxLines: nat) {
    forall k :: 0 <= k < |lines| - 1 && lines[k].next == lines[k].end ==> number + k + 1 <= maxLines
  }

  lemma {:induction false} LayoutWrapsWithin(c: Context, cps: seq<Scalar>, s: nat, number: nat)
    requires s <= |cps| && Layout(c, cps, s, number).Success?
    ensures WrapsWithin(Layout(c, cps, s, number).value, number, c.maxLines)
    decreases |cps| - s
  {
    var lines := Layout(c, cps, s, number).value;
    match ScanLine(c, cps, s)
    case EndOfText(_) =>
    case HardEnd(end, next, w) =>
      LayoutWrapsWithin(c, cps, next, number + 1);
      PrependWraps(Line(s, end, next, w), Layout(c, cps, next, number + 1).value, number, c.maxLines);
    case Wrap(cut, w) =>
      LayoutWrapsWithin(c, cps, cut, number + 1);
      PrependWraps(Line(s, cut, cut, w), Layout(c, cps, cut, number + 1).value, number, c.maxLines);
    case Bad(_) =>
  }

  lemma PrependWraps(line: Line, rest: seq<Line>, number: nat, maxLines: nat)
    requires WrapsWithin(rest, number + 1, maxLines) && (line.next == line.end ==> number + 1 <= maxLines)
    ensures WrapsWithin([line] + rest, number, maxLines)
  {
    var lines := [line] + rest;
    forall k | 0 <= k < |lines| - 1 && lines[k].next == lines[k].end ensures number + k + 1 <= maxLines {
      if k > 0 {
        assert lines[k] == rest[k - 1];
      }
    }
  }

  lemma RestWrapsWithin(lines: seq<Line>, number: nat, maxLines: nat)
    requires lines != [] && WrapsWithin(lines, number, maxLines)
    ensures WrapsWithin(lines[1..], number + 1, maxLines)
  {
    forall k | 0 <= k < |lines[1..]| - 1 && lines[1..][k].next == lines[1..][k].end
      ensures number + 1 + k + 1 <= maxLines
    {
      assert lines[1..][k] == lines[k + 1];
    }
  }

  /** The greedy layout also wraps no later than such a cutting: where it wraps, so does the line of
      the cutting there. */
  lemma {:induction false} WrapsNoLater(
    c: Context, cps: seq<Scalar>, limit: int, cutting: seq<Line>, s: nat, t: nat, number: nat, other: nat)
    requires Plain(c, cps) && limit <= c.limit && IsCutting(c, cps, limit, cutting, s)
    requires s <= t <= |cps| && number <= other && WrapsWithin(cutting, other, c.maxLines)
    requires Sum(c, cps, 0, |cps|) <= INT64_MAX
    ensures Layout(c, cps, t, number).Success?
    decreases |cutting|
  {
    var line := cutting[0];
    RestWrapsWithin(cutting, other, c.maxLines);
    if t >= line.next && |cutting| > 1 {
      WrapsNoLater(c, cps, limit, cutting[1..], line.next, t, number, other + 1);
    } else {
      var j := ScanLineMeans(c, cps, t);
      var stop := ScanLine(c, cps, t);
      if t < line.next {
        ReachesAsFar(c, cps, limit, line, t);
      }
      if stop.Bad? {
        BadMeansTooWide(c, cps, t);
      } else if !stop.EndOfText? {
        if |cutting| == 1 {
          SingleLineIsEnough(c, cps, limit, line, t);
        } else {
          if stop.Wrap? {
            WrapMeetsWrap(c, cps, limit, line, t, j);
          }
          WrapsNoLater(c, cps, limit, cutting[1..], line.next, if stop.HardEnd? then stop.next else stop.cut,
                       number + 1, other + 1);
        }
      }
    }
  }

  lemma WrapMeetsWrap(c: Context, cps: seq<Scalar>, limit: int, line: Line, t: nat, j: nat)
    requires Plain(c, cps) && limit <= c.limit && Admissible(c, cps, limit, line) && line.start <= t < line.next
    requires ScanLine(c, cps, t).Wrap? && StopMeans(c, cps, t, ScanLine(c, cps, t), j)
    ensures line.next == line.end
  {
    SetsHasNoHardBreak(c, cps, t, j);
    if t <= line.end {
      BlockIsPast(c, cps, limit, line, t, j);
    }
  }

  /** Raising the limit never increases the number of lines; where the advances add up to 64 bits it
      does not lose a layout either. */
  lemma WiderNeverMoreLines(narrow: Context, cps: seq<Scalar>, limit: int)
    requires Plain(narrow, cps) && narrow.limit <= limit <= INT64_MAX
    requires narrow.wraps || narrow.limit == INT64_MAX
    requires Layout(narrow, cps, 0, 1).Success?
    ensures var wide := Layout(narrow.(limit := limit), cps, 0, 1);
            && (wide.Success? ==> |wide.value| <= |Layout(narrow, cps, 0, 1).value|)
            && (Sum(narrow, cps, 0, |cps|) <= INT64_MAX ==> wide.Success?)
  {
    var wide := narrow.(limit := limit);
    var lines := Layout(narrow, cps, 0, 1).value;
    GreedyIsCutting(narrow, cps, 0, 1);
    SameCutting(narrow, wide, cps, narrow.limit, lines, 0);
    StaysAhead(wide, cps, narrow.limit, lines, 0, 0, 1);
    LayoutWrapsWithin(narrow, cps, 0, 1);
    SameSum(narrow, wide, cps, 0, |cps|);
    if Sum(wide, cps, 0, |cps|) <= INT64_MAX {
      WrapsNoLater(wide, cps, narrow.limit, lines, 0, 0, 1, 1);
    }
  }

  /** Advances do not depend on the limit. */
  lemma {:induction false} SameSum(a: Context, b: Context, cps: seq<Scalar>, s: nat, e: nat)
    requires s <= e <= |cps| && a.family == b.family && a.fontSize == b.fontSize
    ensures Sum(a, cps, s, e) == Sum(b, cps, s, e)
    decreases e - s
  {
    if s < e {
      SameSum(a, b, cps, s, e - 1);
    }
  }

  lemma {:induction false} SameCutting(
    a: Context, b: Context, cps: seq<Scalar>, limit: int, lines: seq<Line>, s: nat)
    requires a.family == b.family && a.fontSize == b.fontSize && IsCutting(a, cps, limit, lines, s)
    ensures IsCutting(b, cps, limit, lines, s)
    decreases |lines|
  {
    SameSum(a, b, cps, lines[0].start, lines[0].end);
    if |lines| > 1 {
      SameCutting(a, b, cps, limit, lines[1..], lines[0].next);
    }
  }

  // ----- How exact a width is -----

  function DesignWidth(c: Context, cps: seq<Scalar>, s: nat, e: nat): int
    requires s <= e <= |cps|
    decreases e - s
  {
    if s == e then 0 else DesignWidth(c, cps, s, e - 1) + Advance(c.family, cps[e - 1])
  }

  /** Without kerning, an advance that succeeds is the glyph's own. */
  lemma KernlessSuccess(c: Context, previous: Option<nat>, cp: Scalar)
    requires c.family.kerning == [] && GlyphAdvance(c, previous, cp).Success?
    ensures GlyphAdvance(c, previous, cp) == BaseAdvance(c, cp)
  {
    HalfScalesToZero(c.fontSize, c.family.unitsPerEm);
  }

  /** A line of n glyphs, none of them a tab, without kerning and with no negative advance, is
      within n/2 Q26.6 units of its exact width. */
  lemma {:induction false} WidthNearExact(c: Context, cps: seq<Scalar>, s: nat, e: nat)
    requires c.Valid() && c.family.kerning == [] && s <= e <= |cps| && Width(c, cps, s, e).Success?
    requires forall k :: s <= k < e ==> cps[k] != TAB && Advance(c.family, cps[k]) >= 0
    ensures 2 * Abs(Width(c, cps, s, e).value * c.family.unitsPerEm
                    - DesignWidth(c, cps, s, e) * c.fontSize)
         <= (e - s) * c.family.unitsPerEm
    decreases e - s
  {
    if s < e {
      WidthNearExact(c, cps, s, e - 1);
      KernlessSuccess(c, Previous(cps, s, e - 1), cps[e - 1]);
      ScalingWithinHalf(Advance(c.family, cps[e - 1]), c.fontSize, c.family.unitsPerEm);
      ErrorsAdd(Width(c, cps, s, e - 1).value, BaseAdvance(c, cps[e - 1]).value,
                DesignWidth(c, cps, s, e - 1), Advance(c.family, cps[e - 1]),
                c.family.unitsPerEm, c.fontSize, e - 1 - s);
    }
  }

  lemma ErrorsAdd(w: int, a: int, dw: int, da: int, u: nat, size: int, n: nat)
    requires 2 * Abs(w * u - dw * size) <= n * u && 2 * Abs(a * u - da * size) <= u
    ensures 2 * Abs((w + a) * u - (dw + da) * size) <= (n + 1) * u
  {
    assert (w + a) * u == w * u + a * u;
    assert (dw + da) * size == dw * size + da * size;
  }
}
