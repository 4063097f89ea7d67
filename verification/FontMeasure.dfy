/** The text measurer: a validation pass, then a wrap loop over byte offsets whose cursor jumps
    back to the last break opportunity. */
module FontMeasure {
  import opened Wrappers
  import opened FixedPoint
  import opened FontMetrics
  import opened Utf8
  import opened TextLayout

  datatype Constraint = Unconstrained | AtMost(value: int) | Exactly(value: int)
  {
    predicate Valid() {
      this.Unconstrained? || 0 <= value <= INT64_MAX
    }
  }

  /** Sizes are Q26.6 integers. */
  datatype Request = Request(text: seq<Byte>, fontSize: int, width: Constraint, height: Constraint)
  {
    predicate Valid() {
      0 <= fontSize <= INT64_MAX && width.Valid() && height.Valid()
    }
  }

  datatype Limits = Limits(maxCodePoints: nat, maxLines: nat)

  datatype Outcome = Measured(width: int, height: int) | Failed(error: MeasureError)

  // ----- What the two passes mean -----

  function LineFeeds(cps: seq<Scalar>): nat {
    if cps == [] then 0
    else LineFeeds(cps[..|cps| - 1]) + if cps[|cps| - 1] == LF then 1 else 0
  }

  predicate OverLimit(cps: seq<Scalar>, limits: Limits) {
    |cps| > limits.maxCodePoints || 1 + LineFeeds(cps) > limits.maxLines
  }

  ghost predicate Decodable(text: seq<Byte>) {
    exists cps: seq<Scalar> :: EncodeAll(cps) == text
  }

  /** Some decodable beginning of the text, at least one code point long, is over a limit. */
  ghost predicate Exceeds(text: seq<Byte>, limits: Limits) {
    exists cps: seq<Scalar> :: cps != [] && EncodeAll(cps) <= text && OverLimit(cps, limits)
  }

  ghost function Decoded(text: seq<Byte>): (cps: seq<Scalar>)
    requires Decodable(text)
    ensures EncodeAll(cps) == text
  {
    var cps: seq<Scalar> :| EncodeAll(cps) == text;
    cps
  }

  function Clamp(natural: int, constraint: Constraint): int {
    match constraint
    case Unconstrained => natural
    case AtMost(limit) => if natural < limit then natural else limit
    case Exactly(limit) => limit
  }

  function Exact(constraint: Constraint): int {
    if constraint.Exactly? then constraint.value else 0
  }

  function ContextOf(family: Family, request: Request, limits: Limits): Context {
    Context(family, request.fontSize, !request.width.Unconstrained?,
            if request.width.Unconstrained? then INT64_MAX else request.width.value,
            limits.maxLines)
  }

  /** The measured box of `count` lines. Only an upper overflow of the height is checked; a family
      with a negative line height could wrap. */
  function Finish(lineHeight: int, count: nat, maxWidth: int, request: Request): Outcome {
    if lineHeight * count > INT64_MAX then Failed(HeightOverflow)
    else
      var width := Clamp(maxWidth, request.width);
      var height := Clamp(Narrow64(lineHeight * count), request.height);
      if width < 0 || height < 0 then Failed(NegativeSize) else Measured(width, height)
  }

  function MeasureCodePoints(family: Family, request: Request, limits: Limits, cps: seq<Scalar>): Outcome {
    match ScaleDesignUnits(family.lineHeight, request.fontSize, family.unitsPerEm)
    case None => Failed(LineHeightOverflow)
    case Some(lineHeight) =>
      match Layout(ContextOf(family, request, limits), cps, 0, 1)
      case Failure(error) => Failed(error)
      case Success(lines) => Finish(lineHeight, |lines|, MaxWidth(lines), request)
  }

  /** The whole measurement, in terms of code points. */
  ghost function MeasureText(family: Family, request: Request, limits: Limits): Outcome {
    if request.text == [] then Measured(Exact(request.width), Exact(request.height))
    else if Exceeds(request.text, limits) then Failed(LimitExceeded)
    else if !Decodable(request.text) then Failed(InvalidUtf8)
    else MeasureCodePoints(family, request, limits, Decoded(request.text))
  }

  // ----- The validation pass -----

  lemma {:induction false} LineFeedsOfPrefix(a: seq<Scalar>, b: seq<Scalar>)
    requires a <= b
    ensures LineFeeds(a) <= LineFeeds(b)
    decreases |b|
  {
    if |a| < |b| {
      LineFeedsOfPrefix(a, b[..|b| - 1]);
    } else {
      assert a == b;
    }
  }

  /** Where decoding stops, every decodable beginning of the text has been seen. */
  lemma StuckMeansAllSeen(text: seq<Byte>, seen: seq<Scalar>, other: seq<Scalar>)
    requires EncodeAll(seen) <= text && EncodeAll(other) <= text
    requires |EncodeAll(seen)| < |text| && !CharAt(text, |EncodeAll(seen)|)
    ensures other <= seen
  {
    if |EncodeAll(other)| <= |EncodeAll(seen)| {
      PrefixOfText(other, seen);
    } else {
      PrefixOfText(seen, other);
      SamePrefix(seen, other, |seen|);
      EncodeAllLength(seen);
      EncodeAllLength(other);
      BoundaryInside(text, other, |seen|);
    }
  }

  lemma BoundaryInside(text: seq<Byte>, cps: seq<Scalar>, i: nat)
    requires EncodeAll(cps) <= text && i < |cps|
    ensures CharAt(text, Offset(cps, i))
  {
    EncodeAllAt(cps, i);
    EncodingIsWellFormed(cps[i]);
    var at, n := Offset(cps, i), |Encode(cps[i])|;
    assert text[at..at + n] == EncodeAll(cps)[at..at + n];
    assert StartsChar(text, at, n);
  }

  lemma SamePrefixes<T>(a: seq<T>, b: seq<T>)
    requires a <= b && b <= a
    ensures a == b
  {
  }

  lemma NothingOverLimit(text: seq<Byte>, seen: seq<Scalar>, limits: Limits)
    requires EncodeAll(seen) <= text && (seen == [] || !OverLimit(seen, limits))
    requires |EncodeAll(seen)| == |text| || !CharAt(text, |EncodeAll(seen)|)
    ensures !Exceeds(text, limits)
    ensures |EncodeAll(seen)| < |text| ==> !Decodable(text)
  {
    forall other: seq<Scalar> | EncodeAll(other) <= text
      ensures other <= seen && LineFeeds(other) <= LineFeeds(seen)
    {
      if |EncodeAll(seen)| == |text| {
        PrefixOfText(other, seen);
      } else {
        StuckMeansAllSeen(text, seen, other);
      }
      LineFeedsOfPrefix(other, seen);
    }
    if |EncodeAll(seen)| < |text| && Decodable(text) {
      var all := Decoded(text);
      PrefixOfText(seen, all);
      assert EncodeAll(all) <= text;
      SamePrefixes(seen, all);
    }
  }

  /** Decodes the text once, counting. */
  method Validate(text: seq<Byte>, limits: Limits)
    returns (error: Option<MeasureError>, ghost cps: seq<Scalar>)
    requires text != []
    ensures error == if Exceeds(text, limits) then Some(LimitExceeded)
                     else if !Decodable(text) then Some(InvalidUtf8) else None
    ensures error.None? ==> text == EncodeAll(cps)
  {
    cps := [];
    var cursor, codePointCount, lineCount := 0, 0, 1;
    while cursor < |text|
      invariant cursor <= |text| && text[..cursor] == EncodeAll(cps)
      invariant codePointCount == |cps| && lineCount == 1 + LineFeeds(cps)
      invariant cps != [] ==> !OverLimit(cps, limits)
      invariant cps == [] ==> cursor == 0
    {
      var ok, next, codePoint := NextCodePoint(text, cursor);
      if !ok {
        NothingOverLimit(text, cps, limits);
        return Some(InvalidUtf8), cps;
      }
      ghost var grown := cps + [codePoint];
      assert grown[..|cps|] == cps;
      assert text[..next] == text[..cursor] + text[cursor..next];
      cps := grown;
      cursor := next;
      codePointCount := codePointCount + 1;
      if codePoint == LF {
        lineCount := lineCount + 1;
      }
      if codePointCount > limits.maxCodePoints || lineCount > limits.maxLines {
        assert EncodeAll(cps) <= text && OverLimit(cps, limits);
        return Some(LimitExceeded), cps;
      }
    }
    assert text[..cursor] == text;
    NothingOverLimit(text, cps, limits);
    error := None;
  }

  // ----- The wrap loop -----

  /** The advance of one glyph, with the family's table searches. */
  method AdvanceGlyph(
    family: FontFamilyMetrics, fontSize: int, previous: Option<nat>, codePoint: nat, ghost c: Context)
    returns (advance: Metric)
    requires family.Valid() && c.family == family.Metrics() && c.fontSize == fontSize
    ensures advance == GlyphAdvance(c, previous, codePoint)
  {
    var tab := codePoint == TAB;
    var glyph := if tab then SPACE else codePoint;
    var supported := family.HasGlyph(glyph);
    if !supported {
      return Failure(UnsupportedGlyph);
    }
    var design := family.spaceAdvance;
    if !tab {
      design := family.AdvanceOf(glyph);
    }
    var scaled := ScaleDesignUnits(design, fontSize, family.unitsPerEm);
    if scaled.None? {
      return Failure(AdvanceOverflow);
    }
    advance := Success(scaled.value);
    if tab {
      advance := FourTimes(scaled.value);
      if advance.Failure? {
        return;
      }
    }
    if previous.Some? {
      var kerning := family.KerningOf(previous.value, glyph);
      var adjustment := ScaleDesignUnits(kerning, fontSize, family.unitsPerEm);
      if adjustment.None? {
        return Failure(KerningOverflow);
      }
      if adjustment.value > 0 {
        return Failure(InvalidKerning);
      }
      var kerned := AddQ26(advance.value, adjustment.value);
      if kerned.None? {
        return Failure(KerningMadeAdvanceInvalid);
      }
      advance := Success(kerned.value);
    }
  }

  /** The width of the line with one glyph more. */
  method WidthWithGlyph(
    family: FontFamilyMetrics, fontSize: int, previous: Option<nat>, codePoint: nat, lineWidth: int,
    ghost c: Context, ghost cps: seq<Scalar>, ghost s: nat, ghost i: nat)
    returns (candidate: Metric)
    requires family.Valid() && c.family == family.Metrics() && c.fontSize == fontSize
    requires s <= i < |cps| && cps[i] == codePoint && previous == Previous(cps, s, i)
    requires 0 <= lineWidth <= INT64_MAX
    ensures candidate == Candidate(c, cps, s, i, lineWidth)
  {
    var advance := AdvanceGlyph(family, fontSize, previous, codePoint, c);
    if advance.Failure? {
      return advance;
    }
    var sum := AddQ26(lineWidth, advance.value);
    return if sum.None? then Failure(LineWidthOverflow) else Success(sum.value);
  }

  /** The byte offset the loop keeps for the last break opportunity, if it has seen one. */
  function BreakOffset(cps: seq<Scalar>, last: Option<Break>): Option<nat>
    requires last.Some? ==> last.value.at <= |cps|
  {
    if last.Some? then Some(Offset(cps, last.value.at)) else None
  }

  lemma PrependTwice(done: seq<Line>, line: Line, rest: Lines)
    ensures Prepend(done, Prepend([line], rest)) == Prepend(done + [line], rest)
  {
    if rest.Success? {
      assert done + ([line] + rest.value) == done + [line] + rest.value;
    }
  }

  /** Reading at a boundary of a validated text cannot fail and moves to the next boundary. */
  method ReadAt(text: seq<Byte>, cursor: nat, ghost cps: seq<Scalar>, ghost i: nat)
    returns (next: nat, codePoint: nat)
    requires text == EncodeAll(cps) && i < |cps| && cursor == Offset(cps, i)
    ensures codePoint == cps[i] && next == Offset(cps, i + 1) && cursor < next <= |text|
  {
    var ok, after, value := NextCodePoint(text, cursor);
    BoundaryStartsChar(cps, i);
    DecodesBack(cps, i, after, value);
    assert ok;
    return after, value;
  }

  lemma BoundaryInText(cps: seq<Scalar>, i: nat)
    requires i <= |cps|
    ensures Offset(cps, i) < |EncodeAll(cps)| <==> i < |cps|
    ensures Offset(cps, i) <= |EncodeAll(cps)|
  {
    EncodeAllLength(cps);
    OffsetIncreasing(cps, i, |cps|);
  }

  /** Past a carriage return the loop probes for a line feed; this is where it goes on. */
  method SkipHardBreak(text: seq<Byte>, cursor: nat, codePoint: nat, ghost cps: seq<Scalar>, ghost i: nat)
    returns (next: nat)
    requires text == EncodeAll(cps) && i < |cps| && cps[i] == codePoint && IsHardBreak(codePoint)
    requires cursor == Offset(cps, i + 1)
    ensures next == Offset(cps, AfterHardBreak(cps, i))
  {
    next := cursor;
    BoundaryInText(cps, i + 1);
    if codePoint == CR && cursor < |text| {
      var probe, following := ReadAt(text, cursor, cps, i + 1);
      if following == LF {
        next := probe;
      }
    }
  }

  /** The progress of the layout, kept beside the loop: the line being set started at code
      point `s`, the loop stands at `i`, and `done` holds the lines before. */
  datatype Progress = Progress(s: nat, i: nat, last: Option<Break>, done: seq<Line>)

  /** The scan of the current line and the layout of the rest both continue from here. */
  ghost predicate OnTrack(c: Context, cps: seq<Scalar>, p: Progress, width: int, maxWidth: int) {
    && maxWidth == MaxWidth(p.done)
    && p.s <= p.i <= |cps|
    && 0 <= width <= INT64_MAX && (p.i == p.s ==> width == 0)
    && (p.last.Some? ==> p.s < p.last.value.at <= p.i)
    && ScanLine(c, cps, p.s) == Scan(c, cps, p.s, p.i, width, p.last)
    && Layout(c, cps, 0, 1) == Prepend(p.done, Layout(c, cps, p.s, |p.done| + 1))
  }

  /** The loop's own variables say the same in bytes. */
  ghost predicate InBytes(
    cps: seq<Scalar>, p: Progress, cursor: nat, lineStart: nat, lastBreak: Option<nat>, widthAtBreak: int,
    previous: Option<nat>)
  {
    && p.s <= p.i <= |cps| && (p.last.Some? ==> p.s < p.last.value.at <= p.i)
    && cursor == Offset(cps, p.i) && lineStart == Offset(cps, p.s)
    && (cursor < |EncodeAll(cps)| <==> p.i < |cps|)
    && lastBreak == BreakOffset(cps, p.last)
    && widthAtBreak == (if p.last.Some? then p.last.value.width else 0)
    && previous == Previous(cps, p.s, p.i)
  }

  function NewLine(p: Progress, line: Line): Progress {
    Progress(line.next, line.next, None, p.done + [line])
  }

  lemma StartsOnTrack(c: Context, cps: seq<Scalar>)
    ensures OnTrack(c, cps, Progress(0, 0, None, []), 0, 0)
    ensures InBytes(cps, Progress(0, 0, None, []), 0, 0, None, 0, None)
  {
    var rest := Layout(c, cps, 0, 1);
    assert rest.Success? ==> [] + rest.value == rest.value;
    BoundaryInText(cps, 0);
  }

  /** What the loop resets its variables to at the start of a line. */
  ghost predicate StartsLine(cps: seq<Scalar>, p: Progress) {
    p.i <= |cps| && InBytes(cps, p, Offset(cps, p.i), Offset(cps, p.i), None, 0, None)
  }

  lemma NextLine(c: Context, cps: seq<Scalar>, p: Progress, width: int, maxWidth: int, line: Line)
    requires OnTrack(c, cps, p, width, maxWidth) && line.next <= |cps|
    requires Layout(c, cps, p.s, |p.done| + 1)
          == Prepend([line], Layout(c, cps, line.next, |p.done| + 2))
    ensures OnTrack(c, cps, NewLine(p, line), 0, Max(maxWidth, line.width))
    ensures StartsLine(cps, NewLine(p, line))
  {
    PrependTwice(p.done, line, Layout(c, cps, line.next, |p.done| + 2));
    MaxWidthAppend(p.done, line);
    BoundaryInText(cps, line.next);
  }

  lemma HardStep(c: Context, cps: seq<Scalar>, p: Progress, width: int, maxWidth: int)
    requires OnTrack(c, cps, p, width, maxWidth) && p.i < |cps| && IsHardBreak(cps[p.i])
    ensures var line := Line(p.s, p.i, AfterHardBreak(cps, p.i), width);
            && OnTrack(c, cps, NewLine(p, line), 0, Max(maxWidth, width))
            && StartsLine(cps, NewLine(p, line))
  {
    NextLine(c, cps, p, width, maxWidth, Line(p.s, p.i, AfterHardBreak(cps, p.i), width));
  }

  function WrappedLine(p: Progress, width: int): Line {
    if p.last.Some? then Line(p.s, p.last.value.at, p.last.value.at, p.last.value.width)
    else Line(p.s, p.i, p.i, width)
  }

  lemma WrapStep(c: Context, cps: seq<Scalar>, p: Progress, width: int, maxWidth: int, candidate: int)
    requires OnTrack(c, cps, p, width, maxWidth) && p.i < |cps| && !IsHardBreak(cps[p.i])
    requires Candidate(c, cps, p.s, p.i, width) == Success(candidate)
    requires c.wraps && candidate > c.limit && width > 0
    ensures var line := WrappedLine(p, width);
            if |p.done| + 2 > c.maxLines then Layout(c, cps, 0, 1) == Failure(LineLimitExceeded)
            else
              && OnTrack(c, cps, NewLine(p, line), 0, Max(maxWidth, line.width))
              && StartsLine(cps, NewLine(p, line))
  {
    if |p.done| + 2 <= c.maxLines {
      NextLine(c, cps, p, width, maxWidth, WrappedLine(p, width));
    }
  }

  /** The glyph at `i` joins the line. */
  function Grown(p: Progress, cp: nat, width: int): Progress {
    p.(i := p.i + 1, last := if IsBreakOpportunity(Glyph(cp)) then Some(Break(p.i + 1, width)) else p.last)
  }

  lemma GrowStep(c: Context, cps: seq<Scalar>, p: Progress, width: int, maxWidth: int, candidate: int)
    requires OnTrack(c, cps, p, width, maxWidth) && p.i < |cps| && !IsHardBreak(cps[p.i])
    requires Candidate(c, cps, p.s, p.i, width) == Success(candidate)
    requires !(c.wraps && candidate > c.limit && width > 0)
    ensures OnTrack(c, cps, Grown(p, cps[p.i], candidate), candidate, maxWidth)
  {
  }

  lemma GrowInBytes(
    cps: seq<Scalar>, p: Progress, cursor: nat, lineStart: nat, lastBreak: Option<nat>, widthAtBreak: int,
    previous: Option<nat>, candidate: int)
    requires InBytes(cps, p, cursor, lineStart, lastBreak, widthAtBreak, previous) && p.i < |cps|
    ensures var next := Offset(cps, p.i + 1);
            var breaks := IsBreakOpportunity(Glyph(cps[p.i]));
            InBytes(cps, Grown(p, cps[p.i], candidate), next, lineStart,
                    if breaks then Some(next) else lastBreak,
                    if breaks then candidate else widthAtBreak, Some(Glyph(cps[p.i])))
  {
    BoundaryInText(cps, p.i + 1);
  }

  lemma BadStep(c: Context, cps: seq<Scalar>, p: Progress, width: int, maxWidth: int)
    requires OnTrack(c, cps, p, width, maxWidth) && p.i < |cps| && !IsHardBreak(cps[p.i])
    ensures var candidate := Candidate(c, cps, p.s, p.i, width);
            candidate.Failure? ==> Layout(c, cps, 0, 1) == Failure(candidate.error)
  {
  }

  lemma EndStep(c: Context, cps: seq<Scalar>, p: Progress, width: int, maxWidth: int)
    requires OnTrack(c, cps, p, width, maxWidth) && p.i == |cps|
    ensures var line := Line(p.s, |cps|, |cps|, width);
            && Layout(c, cps, 0, 1) == Success(p.done + [line])
            && MaxWidth(p.done + [line]) == Max(maxWidth, width)
  {
    MaxWidthAppend(p.done, Line(p.s, |cps|, |cps|, width));
  }

  /** Ends an overflowing line: back to the last break opportunity, or else to the glyph that
      did not fit. */
  method GoBack(
    before: nat, lineStart: nat, lastBreak: Option<nat>, lineWidth: int, widthAtBreak: int, maxWidth: int,
    ghost cps: seq<Scalar>, ghost p: Progress, ghost previous: Option<nat>)
    returns (cursor: nat, newMaxWidth: int)
    requires InBytes(cps, p, before, lineStart, lastBreak, widthAtBreak, previous)
    ensures var line := WrappedLine(p, lineWidth);
            line.next <= |cps| && cursor == Offset(cps, line.next)
            && newMaxWidth == Max(maxWidth, line.width)
  {
    if p.last.Some? {
      OffsetIncreasing(cps, p.s, p.last.value.at);
    }
    if lastBreak.Some? && lastBreak.value > lineStart {
      newMaxWidth := Max(maxWidth, widthAtBreak);
      cursor := lastBreak.value;
    } else {
      newMaxWidth := Max(maxWidth, lineWidth);
      cursor := before;
    }
  }

  /** The wrap loop: with the text validated it returns exactly the line count and maximum width
      of the recursive layout, or the error that layout meets. */
  method WrapLoop(
    family: FontFamilyMetrics, text: seq<Byte>, fontSize: int, wraps: bool, limit: int, maxLines: nat,
    ghost c: Context, ghost cps: seq<Scalar>)
    returns (error: Option<MeasureError>, lines: nat, maxWidth: int)
    requires family.Valid() && c == Context(family.Metrics(), fontSize, wraps, limit, maxLines)
    requires text == EncodeAll(cps)
    ensures match Layout(c, cps, 0, 1)
            case Failure(e) => error == Some(e)
            case Success(laid) => error.None? && lines == |laid| && maxWidth == MaxWidth(laid)
  {
    var cursor: nat, lineStart: nat := 0, 0;
    var lastBreak: Option<nat> := None;
    var lineWidth, widthAtBreak := 0, 0;
    maxWidth, lines := 0, 1;
    var previous: Option<nat> := None;
    ghost var p := Progress(0, 0, None, []);
    StartsOnTrack(c, cps);
    while cursor < |text|
      invariant OnTrack(c, cps, p, lineWidth, maxWidth)
      invariant InBytes(cps, p, cursor, lineStart, lastBreak, widthAtBreak, previous)
      invariant lines == |p.done| + 1
      decreases |cps| - p.s, |cps| - p.i
    {
      var before := cursor;
      var codePoint;
      cursor, codePoint := ReadAt(text, cursor, cps, p.i);
      if codePoint == CR || codePoint == LF {
        cursor := SkipHardBreak(text, cursor, codePoint, cps, p.i);
        HardStep(c, cps, p, lineWidth, maxWidth);
        p := NewLine(p, Line(p.s, p.i, AfterHardBreak(cps, p.i), lineWidth));
        maxWidth := Max(maxWidth, lineWidth);
        lineWidth, lines, lineStart, lastBreak, widthAtBreak := 0, lines + 1, cursor, None, 0;
        previous := None;
        continue;
      }
      BadStep(c, cps, p, lineWidth, maxWidth);
      var candidate := WidthWithGlyph(family, fontSize, previous, codePoint, lineWidth, c, cps, p.s, p.i);
      if candidate.Failure? {
        return Some(candidate.error), lines, maxWidth;
      }
      if wraps && candidate.value > limit && lineWidth > 0 {
        WrapStep(c, cps, p, lineWidth, maxWidth, candidate.value);
        cursor, maxWidth := GoBack(
          before, lineStart, lastBreak, lineWidth, widthAtBreak, maxWidth, cps, p, previous);
        lines := lines + 1;
        if lines > maxLines {
          return Some(LineLimitExceeded), lines, maxWidth;
        }
        p := NewLine(p, WrappedLine(p, lineWidth));
        lineStart, lineWidth, lastBreak, widthAtBreak, previous := cursor, 0, None, 0, None;
        continue;
      }
      GrowStep(c, cps, p, lineWidth, maxWidth, candidate.value);
      GrowInBytes(cps, p, before, lineStart, lastBreak, widthAtBreak, previous, candidate.value);
      p := Grown(p, codePoint, candidate.value);
      lineWidth := candidate.value;
      previous := Some(Glyph(codePoint));
      if IsBreakOpportunity(Glyph(codePoint)) {
        lastBreak, widthAtBreak := Some(cursor), lineWidth;
      }
    }
    EndStep(c, cps, p, lineWidth, maxWidth);
    maxWidth := Max(maxWidth, lineWidth);
    error := None;
  }

  // ----- The whole measurement -----

  /** Measures a text: the outcome is the one the recursive layout of its code points gives. */
  method MeasureWithSnapshot(family: FontFamilyMetrics, request: Request, limits: Limits)
    returns (outcome: Outcome)
    requires family.Valid() && family.Metrics().InRange() && request.Valid()
    ensures outcome == MeasureText(family.Metrics(), request, limits)
  {
    var widthLimit := if request.width.Unconstrained? then INT64_MAX else request.width.value;
    if request.text == [] {
      var resultWidth := if request.width.Exactly? then widthLimit else 0;
      var resultHeight := if request.height.Exactly? then request.height.value else 0;
      return Measured(resultWidth, resultHeight);
    }
    var error;
    ghost var cps;
    error, cps := Validate(request.text, limits);
    if error.Some? {
      return Failed(error.value);
    }
    EncodeAllInjective(cps, Decoded(request.text));
    var lineHeight := ScaleDesignUnits(family.lineHeight, request.fontSize, family.unitsPerEm);
    if lineHeight.None? {
      return Failed(LineHeightOverflow);
    }
    var failure, lines, maxWidth := WrapLoop(
      family, request.text, request.fontSize, !request.width.Unconstrained?, widthLimit, limits.maxLines,
      ContextOf(family.Metrics(), request, limits), cps);
    if failure.Some? {
      return Failed(failure.value);
    }
    if lineHeight.value * lines > INT64_MAX {
      return Failed(HeightOverflow);
    }
    var naturalHeight := Narrow64(lineHeight.value * lines);
    var resultWidth := maxWidth;
    if request.width.AtMost? {
      resultWidth := if resultWidth < widthLimit then resultWidth else widthLimit;
    } else if request.width.Exactly? {
      resultWidth := widthLimit;
    }
    var resultHeight := naturalHeight;
    if request.height.AtMost? {
      resultHeight := if resultHeight < request.height.value then resultHeight else request.height.value;
    } else if request.height.Exactly? {
      resultHeight := request.height.value;
    }
    return if resultWidth < 0 || resultHeight < 0 then Failed(NegativeSize)
           else Measured(resultWidth, resultHeight);
  }
}
