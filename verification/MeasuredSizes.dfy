/** What a measurement answers: the size of the laid out lines within the constraints, and which texts
    have no size. */
module MeasuredSizes {
  import opened Wrappers
  import opened FixedPoint
  import opened FontMetrics
  import opened Utf8
  import opened TextLayout
  import opened LineBreaking
  import opened FontMeasure

  // ----- The size of the lines -----

  /** The widest of the lines. */
  ghost predicate Widest(lines: seq<Line>, width: int) {
    && (forall line <- lines :: line.width <= width)
    && (exists line <- lines :: line.width == width)
  }

  /** What a side that would be `natural` long may measure. */
  predicate Allowed(natural: int, constraint: Constraint, size: int) {
    match constraint
    case Unconstrained => size == natural
    case AtMost(most) => size <= most && size <= natural && (size == most || size == natural)
    case Exactly(exact) => size == exact
  }

  /** Both sides measure what the lines and the constraints allow. */
  ghost predicate SizeOf(lines: seq<Line>, height: int, request: Request, outcome: Outcome) {
    && outcome.Measured?
    && (exists width: int :: Widest(lines, width) && Allowed(width, request.width, outcome.width))
    && Allowed(height, request.height, outcome.height)
  }

  lemma {:induction false} WidestOf(lines: seq<Line>)
    requires lines != [] && forall line <- lines :: line.width >= 0
    ensures Widest(lines, MaxWidth(lines)) && MaxWidth(lines) >= 0
  {
    MaxWidthIsMaximum(lines);
    assert lines[0] in lines;
  }

  lemma LaidOut(c: Context, cps: seq<Scalar>)
    requires c.Valid() && Layout(c, cps, 0, 1).Success?
    ensures var lines := Layout(c, cps, 0, 1).value;
            lines != [] && Widest(lines, MaxWidth(lines)) && MaxWidth(lines) >= 0
  {
    var lines := Layout(c, cps, 0, 1).value;
    LayoutPartitions(c, cps, 0, 1);
    forall line <- lines ensures line.width >= 0 {
      assert WellCut(cps, line) && Fits(c, cps, line);
    }
    WidestOf(lines);
  }

  /** The height of the lines before constraints; the code cuts the product to 64 bits. */
  function Stacked(lineHeight: int, count: nat): int {
    Narrow64(lineHeight * count)
  }

  lemma ProductSign(x: nat, y: nat)
    ensures x * y >= 0
  {
  }

  lemma StackedExact(lineHeight: nat, count: nat)
    requires lineHeight * count <= INT64_MAX
    ensures Stacked(lineHeight, count) == lineHeight * count >= 0
  {
    ProductSign(lineHeight, count);
    NarrowsTo(lineHeight * count);
  }

  lemma NarrowsTo(x: int)
    requires IsInt64(x)
    ensures Narrow64(x) == x
  {
  }

  // ----- Texts that cannot be laid out -----

  /** Glyph `i` cannot be set on the line from `s`, for this reason. */
  ghost predicate Unset(c: Context, cps: seq<Scalar>, s: nat, i: nat, error: MeasureError) {
    && s <= i < |cps| && !IsHardBreak(cps[i]) && Width(c, cps, s, i).Success?
    && Width(c, cps, s, i + 1) == Failure(error)
    && (|| error.UnsupportedGlyph? || error.AdvanceOverflow? || error.TabOverflow? || error.KerningOverflow?
        || error.InvalidKerning? || error.KerningMadeAdvanceInvalid? || error.LineWidthOverflow?)
    && (error.UnsupportedGlyph? <==> !Contains(c.family, Glyph(cps[i])))
  }

  lemma {:induction false} ScanUnset(c: Context, cps: seq<Scalar>, s: nat, i: nat, w: int, last: Option<Break>)
    returns (j: nat)
    requires s <= i <= |cps| && Width(c, cps, s, i) == Success(w) && (i == s ==> w == 0)
    requires last.Some? ==> s < last.value.at <= i
    ensures var stop := Scan(c, cps, s, i, w, last); stop.Bad? ==> Unset(c, cps, s, j, stop.error)
    decreases |cps| - i
  {
    j := i;
    if i < |cps| && !IsHardBreak(cps[i]) {
      var candidate := Candidate(c, cps, s, i, w);
      assert Width(c, cps, s, i + 1) == candidate;
      if candidate.Success? && !(c.wraps && candidate.value > c.limit && w > 0) {
        j := ScanUnset(c, cps, s, i + 1, candidate.value,
                       if IsBreakOpportunity(Glyph(cps[i])) then Some(Break(i + 1, candidate.value)) else last);
      }
    }
  }

  /** A layout that fails met a glyph that cannot be set, or more lines than it may have. */
  lemma {:induction false} LayoutFailure(c: Context, cps: seq<Scalar>, s: nat, number: nat)
    requires s <= |cps| && Layout(c, cps, s, number).Failure?
    ensures var error := Layout(c, cps, s, number).error;
            || (error.LineLimitExceeded? && c.wraps)
            || exists t, i :: s <= t && Unset(c, cps, t, i, error)
    decreases |cps| - s
  {
    var j := ScanUnset(c, cps, s, s, 0, None);
    match ScanLine(c, cps, s)
    case Bad(error) => assert Unset(c, cps, s, j, error);
    case EndOfText(w) =>
    case HardEnd(end, next, w) => LayoutFailure(c, cps, next, number + 1);
    case Wrap(cut, w) =>
      WrapsOnly(c, cps, s, s, 0, None);
      if number + 1 <= c.maxLines {
        LayoutFailure(c, cps, cut, number + 1);
      }
  }

  lemma {:induction false} WrapsOnly(c: Context, cps: seq<Scalar>, s: nat, i: nat, w: int, last: Option<Break>)
    requires s <= i <= |cps| && 0 <= w <= INT64_MAX && (i == s ==> w == 0)
    requires last.Some? ==> s < last.value.at <= i
    ensures Scan(c, cps, s, i, w, last).Wrap? ==> c.wraps
    decreases |cps| - i
  {
    if i < |cps| && !IsHardBreak(cps[i]) {
      var candidate := Candidate(c, cps, s, i, w);
      if candidate.Success? && !(c.wraps && candidate.value > c.limit && w > 0) {
        WrapsOnly(c, cps, s, i + 1, candidate.value,
                  if IsBreakOpportunity(Glyph(cps[i])) then Some(Break(i + 1, candidate.value)) else last);
      }
    }
  }

  /** Neither is an error of the height. */
  lemma NotOfHeight(c: Context, cps: seq<Scalar>)
    requires Layout(c, cps, 0, 1).Failure?
    ensures var error := Layout(c, cps, 0, 1).error; !error.HeightOverflow? && !error.NegativeSize?
  {
    LayoutFailure(c, cps, 0, 1);
  }

  // ----- What is answered -----

  /** The text is decoded and within the limits: the outcome is the error of the line height or of the
      layout; or too high, exactly when the lines are higher than 64 bits; or negative, exactly when
      their height is and is not asked for exactly; or else the size of the lines. */
  lemma MeasuredSize(family: Family, request: Request, limits: Limits, cps: seq<Scalar>)
    requires family.InRange() && request.Valid() && request.text != [] && EncodeAll(cps) == request.text
    requires !Exceeds(request.text, limits)
    ensures var outcome := MeasureText(family, request, limits);
            var lineHeight := ScaleDesignUnits(family.lineHeight, request.fontSize, family.unitsPerEm);
            var layout := Layout(ContextOf(family, request, limits), cps, 0, 1);
            && (outcome == Failed(HeightOverflow)
                <==> lineHeight.Some? && layout.Success? && lineHeight.value * |layout.value| > INT64_MAX)
            && (outcome == Failed(NegativeSize)
                <==> lineHeight.Some? && layout.Success? && lineHeight.value * |layout.value| <= INT64_MAX
                     && Stacked(lineHeight.value, |layout.value|) < 0 && !request.height.Exactly?)
            && (outcome.Measured? ==>
                  lineHeight.Some? && layout.Success?
                  && SizeOf(layout.value, Stacked(lineHeight.value, |layout.value|), request, outcome))
            && (outcome.Failed? ==>
                  || outcome.error.HeightOverflow? || outcome.error.NegativeSize?
                  || (lineHeight.None? && outcome.error.LineHeightOverflow?)
                  || (lineHeight.Some? && layout == Failure(outcome.error)))
  {
    EncodeAllInjective(cps, Decoded(request.text));
    var c := ContextOf(family, request, limits);
    if Layout(c, cps, 0, 1).Success? {
      LaidOut(c, cps);
    } else {
      NotOfHeight(c, cps);
    }
  }

  /** The size of the lines, each of them a line height high. */
  ghost predicate FullSize(family: Family, request: Request, limits: Limits, cps: seq<Scalar>, outcome: Outcome)
    requires request.Valid() && family.InRange()
  {
    var lineHeight := ScaleDesignUnits(family.lineHeight, request.fontSize, family.unitsPerEm);
    var lines := Layout(ContextOf(family, request, limits), cps, 0, 1);
    lineHeight.Some? && lines.Success? && SizeOf(lines.value, lineHeight.value * |lines.value|, request, outcome)
  }

  /** A family that the snapshots take: its line height is not negative. Its texts never measure
      negative, and unconstrained they are as high as their lines together. */
  lemma MeasuredExactly(family: Family, request: Request, limits: Limits, cps: seq<Scalar>)
    requires family.InRange() && request.Valid() && request.text != [] && EncodeAll(cps) == request.text
    requires !Exceeds(request.text, limits) && family.lineHeight >= 0
    ensures var outcome := MeasureText(family, request, limits);
            && outcome != Failed(NegativeSize)
            && (outcome.Measured? ==> FullSize(family, request, limits, cps, outcome))
  {
    MeasuredSize(family, request, limits, cps);
    var scaled := ScaleDesignUnits(family.lineHeight, request.fontSize, family.unitsPerEm);
    var lines := Layout(ContextOf(family, request, limits), cps, 0, 1);
    if scaled.Some? && lines.Success? {
      ScaledSign(family.lineHeight, request.fontSize, family.unitsPerEm);
      StackedTo(scaled.value, |lines.value|, scaled.value * |lines.value|);
    }
  }

  lemma StackedTo(lineHeight: nat, count: nat, product: int)
    requires product == lineHeight * count
    ensures product <= INT64_MAX ==> Stacked(lineHeight, count) == product >= 0
  {
    if product <= INT64_MAX {
      StackedExact(lineHeight, count);
    }
  }

  lemma ScaledSign(designUnits: nat, fontSize: nat, unitsPerEm: nat)
    requires ScaleDesignUnits(designUnits, fontSize, unitsPerEm).Some?
    ensures ScaleDesignUnits(designUnits, fontSize, unitsPerEm).value >= 0
  {
    ProductSign(designUnits, fontSize);
    QuotientBounds(designUnits * fontSize + unitsPerEm / 2, unitsPerEm);
  }

  /** The empty text is as large as is asked for exactly, and otherwise nothing. */
  lemma NothingToMeasure(family: Family, request: Request, limits: Limits)
    requires request.text == []
    ensures var outcome := MeasureText(family, request, limits);
            && outcome.Measured?
            && outcome.width == (match request.width case Exactly(exact) => exact case _ => 0)
            && outcome.height == (match request.height case Exactly(exact) => exact case _ => 0)
  {
  }

  // ----- Kerning -----

  lemma NothingScaled(fontSize: int, unitsPerEm: nat)
    requires unitsPerEm > 0
    ensures ScaleDesignUnits(0, fontSize, unitsPerEm) == Some(0)
  {
    assert unitsPerEm / 2 < unitsPerEm;
  }

  /** Two glyphs on a line. */
  lemma SetTwo(c: Context, p: Scalar, q: Scalar, x: int, y: int)
    requires BaseAdvance(c, p) == Success(x) && GlyphAdvance(c, Some(Glyph(p)), q) == Success(y)
    requires 0 <= x <= INT64_MAX && IsInt64(y) && 0 <= x + y <= INT64_MAX
    ensures Width(c, [p, q], 0, 2) == Success(x + y)
  {
    var cps := [p, q];
    assert Width(c, cps, 0, 0) == Success(0);
    assert Candidate(c, cps, 0, 0, 0) == Success(x);
    assert Width(c, cps, 0, 1) == Success(x);
    assert Previous(cps, 0, 1) == Some(Glyph(p));
    assert Candidate(c, cps, 0, 1, x) == Success(x + y);
  }

  lemma KernedBy(c: Context, left: Scalar, right: Scalar, y: int, d: int)
    requires left != TAB && right != TAB && BaseAdvance(c, right) == Success(y) && 0 <= y <= INT64_MAX && -y <= d <= 0
    requires ScaleDesignUnits(KerningAdjustment(c.family, left, right), c.fontSize, c.family.unitsPerEm) == Some(d)
    ensures GlyphAdvance(c, Some(Glyph(left)), right) == Success(y + d)
  {
  }

  /** A family kerns the pair (a, v): then "av" is narrower than its glyphs by just that adjustment, and
      "va" is not. */
  lemma KernsInOrder(c: Context, a: Scalar, v: Scalar, adjustment: int, x: int, y: int, d: int)
    requires c.Valid() && c.family.kerning == [KerningPair(a, v, adjustment)] && a != v && a != TAB && v != TAB
    requires BaseAdvance(c, a) == Success(x) && BaseAdvance(c, v) == Success(y)
    requires 0 <= x && 0 <= y && x + y <= INT64_MAX
    requires ScaleDesignUnits(adjustment, c.fontSize, c.family.unitsPerEm) == Some(d) && -y <= d <= 0
    ensures Width(c, [a, v], 0, 2) == Success(x + y + d)
    ensures Width(c, [v, a], 0, 2) == Success(x + y)
  {
    NothingScaled(c.fontSize, c.family.unitsPerEm);
    assert FindKerning([KerningPair(a, v, adjustment)], v, a).None?;
    KernedBy(c, a, v, y, d);
    KernedBy(c, v, a, x, 0);
    SetTwo(c, a, v, x, y + d);
    SetTwo(c, v, a, y, x);
  }

  /** Kerning only narrows: a pair moved apart is refused. */
  lemma KerningNeverWidens(c: Context, a: Scalar, v: Scalar, adjustment: int, d: int)
    requires c.Valid() && c.family.kerning == [KerningPair(a, v, adjustment)] && a != TAB && v != TAB
    requires BaseAdvance(c, a).Success? && BaseAdvance(c, v).Success? && BaseAdvance(c, a).value >= 0
    requires ScaleDesignUnits(adjustment, c.fontSize, c.family.unitsPerEm) == Some(d) && d > 0
    ensures Width(c, [a, v], 0, 2) == Failure(InvalidKerning)
  {
    var cps: seq<Scalar> := [a, v];
    var x := BaseAdvance(c, a).value;
    assert Width(c, cps, 0, 0) == Success(0);
    assert Candidate(c, cps, 0, 0, 0) == Success(x);
    assert Width(c, cps, 0, 1) == Success(x);
    assert Previous(cps, 0, 1) == Some(Glyph(a));
    assert Candidate(c, cps, 0, 1, x) == Failure(InvalidKerning);
  }

  // ----- Tabs, limits and wrapping -----

  /** A tab is four times as wide as the family says a space is, whatever its space glyph is. */
  lemma TabIsFourSpaces(c: Context, advance: int)
    requires c.Valid() && Contains(c.family, SPACE)
    requires ScaleDesignUnits(c.family.spaceAdvance, c.fontSize, c.family.unitsPerEm) == Some(advance)
    ensures Width(c, [TAB], 0, 1)
              == if 0 <= 4 * advance <= INT64_MAX then Success(4 * advance) else Failure(TabOverflow)
  {
    assert Width(c, [TAB], 0, 0) == Success(0);
    assert Width(c, [TAB], 0, 1) == Candidate(c, [TAB], 0, 0, 0);
  }

  function LineFeedsIn(cps: seq<Scalar>): set<nat> {
    set i: nat | i < |cps| && cps[i] == LF
  }

  lemma {:induction false} LineFeedsCounted(cps: seq<Scalar>)
    ensures LineFeeds(cps) == |LineFeedsIn(cps)|
  {
    if cps != [] {
      var n: nat := |cps| - 1;
      LineFeedsCounted(cps[..n]);
      assert LineFeedsIn(cps) == LineFeedsIn(cps[..n]) + if cps[n] == LF then {n} else {};
    }
  }

  lemma OverLimitOnwards(a: seq<Scalar>, b: seq<Scalar>, limits: Limits)
    requires EncodeAll(a) <= EncodeAll(b) && OverLimit(a, limits)
    ensures OverLimit(b, limits)
  {
    PrefixOfText(a, b);
    LineFeedsOfPrefix(a, b);
  }

  /** A text is over the limits exactly if it has more code points than one, or as many line feeds as
      the other. */
  lemma ExceedsIff(cps: seq<Scalar>, limits: Limits)
    requires cps != []
    ensures Exceeds(EncodeAll(cps), limits)
            <==> |cps| > limits.maxCodePoints || |LineFeedsIn(cps)| >= limits.maxLines
  {
    LineFeedsCounted(cps);
    assert EncodeAll(cps) <= EncodeAll(cps);
    if Exceeds(EncodeAll(cps), limits) {
      var other: seq<Scalar> :| other != [] && EncodeAll(other) <= EncodeAll(cps) && OverLimit(other, limits);
      OverLimitOnwards(other, cps, limits);
    }
  }

  /** Asked for a width exactly, a text is wrapped as for at most that width. */
  lemma ExactlyWrapsAlike(family: Family, request: Request, limits: Limits, limit: int)
    requires family.InRange() && request.Valid() && 0 <= limit <= INT64_MAX
    ensures var most := MeasureText(family, request.(width := AtMost(limit)), limits);
            var exact := MeasureText(family, request.(width := Exactly(limit)), limits);
            && (most.Failed? ==> exact == most)
            && (most.Measured? ==> exact == Measured(limit, most.height))
  {
    if request.text != [] && !Exceeds(request.text, limits) && Decodable(request.text) {
      var cps := Decoded(request.text);
      var c := ContextOf(family, request.(width := AtMost(limit)), limits);
      assert ContextOf(family, request.(width := Exactly(limit)), limits) == c;
      if Layout(c, cps, 0, 1).Success? {
        LaidOut(c, cps);
      }
    }
  }
}
