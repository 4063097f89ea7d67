/** What the text measurer computes, over code points instead of bytes: greedy lines, each
    described by a forward scan that never goes back. */
module TextLayout {
  import opened Wrappers
  import opened FixedPoint
  import opened FontMetrics
  import opened Utf8

  datatype MeasureError =
    | InvalidUtf8
    | LimitExceeded
    | LineHeightOverflow
    | UnsupportedGlyph
    | AdvanceOverflow
    | TabOverflow
    | KerningOverflow
    | InvalidKerning
    | KerningMadeAdvanceInvalid
    | LineWidthOverflow
    | LineLimitExceeded
    | HeightOverflow
    | NegativeSize

  const TAB := 0x09
  const LF := 0x0A
  const CR := 0x0D
  const SPACE := 0x20

  predicate IsWhitespace(cp: nat) {
    || cp == 0x20 || cp == 0x09 || cp == 0x0B || cp == 0x0C || cp == 0x0D || cp == 0x85
    || cp == 0xA0 || 0x2000 <= cp <= 0x200A
  }

  predicate IsCjk(cp: nat) {
    || 0x3400 <= cp <= 0x4DBF
    || 0x4E00 <= cp <= 0x9FFF
    || 0xF900 <= cp <= 0xFAFF
    || 0xFF01 <= cp <= 0xFF5E
  }

  predicate IsBreakOpportunity(cp: nat) {
    IsWhitespace(cp) || IsCjk(cp)
  }

  predicate IsHardBreak(cp: nat) {
    cp == CR || cp == LF
  }

  /** A tab is drawn, kerned and broken as a space. */
  function Glyph(cp: nat): nat {
    if cp == TAB then SPACE else cp
  }

  /** What stays fixed while one text is laid out. */
  datatype Context = Context(family: Family, fontSize: int, wraps: bool, limit: int, maxLines: nat)
  {
    predicate Valid() {
      family.InRange() && 0 <= fontSize <= INT64_MAX && 0 <= limit <= INT64_MAX
    }
  }

  type Metric = Result<int, MeasureError>

  /** The scaled advance before kerning; a tab is four spaces wide. */
  function BaseAdvance(c: Context, cp: nat): (r: Metric)
    ensures r.Success? ==> IsInt64(r.value)
  {
    if !Contains(c.family, Glyph(cp)) then Failure(UnsupportedGlyph)
    else
      var design := if cp == TAB then c.family.spaceAdvance else Advance(c.family, Glyph(cp));
      match ScaleDesignUnits(design, c.fontSize, c.family.unitsPerEm)
      case None => Failure(AdvanceOverflow)
      case Some(advance) => if cp == TAB then FourTimes(advance) else Success(advance)
  }

  function FourTimes(advance: int): (r: Metric)
    requires IsInt64(advance)
    ensures r.Success? <==> 0 <= 4 * advance <= INT64_MAX
    ensures r.Success? ==> r.value == 4 * advance
  {
    match AddQ26(advance, advance)
    case None => Failure(TabOverflow)
    case Some(twice) =>
      match AddQ26(twice, twice)
      case None => Failure(TabOverflow)
      case Some(fourfold) => Success(fourfold)
  }

  /** The advance of a glyph after the glyph before it on the same line, if any. */
  function GlyphAdvance(c: Context, previous: Option<nat>, cp: nat): (r: Metric)
    ensures r.Success? ==> IsInt64(r.value)
  {
    match BaseAdvance(c, cp)
    case Failure(e) => Failure(e)
    case Success(advance) =>
      if previous.None? then Success(advance)
      else Kerned(c, previous.value, Glyph(cp), advance)
  }

  function Kerned(c: Context, previous: nat, glyph: nat, advance: int): (r: Metric)
    requires IsInt64(advance)
    ensures r.Success? ==> IsInt64(r.value)
  {
    match ScaleDesignUnits(KerningAdjustment(c.family, previous, glyph), c.fontSize, c.family.unitsPerEm)
    case None => Failure(KerningOverflow)
    case Some(adjustment) =>
      if adjustment > 0 then Failure(InvalidKerning)
      else
        match AddQ26(advance, adjustment)
        case None => Failure(KerningMadeAdvanceInvalid)
        case Some(kerned) => Success(kerned)
  }

  /** The glyph before position `i` of the line that starts at `s`. */
  function Previous(cps: seq<Scalar>, s: nat, i: nat): Option<nat>
    requires s <= i <= |cps|
  {
    if i > s then Some(Glyph(cps[i - 1])) else None
  }

  /** The width of the line from `s` once glyph `i` is added to the width before it. */
  function Candidate(c: Context, cps: seq<Scalar>, s: nat, i: nat, width: int): (r: Metric)
    requires s <= i < |cps| && 0 <= width <= INT64_MAX
    ensures r.Success? ==> 0 <= r.value <= INT64_MAX
  {
    match GlyphAdvance(c, Previous(cps, s, i), cps[i])
    case Failure(error) => Failure(error)
    case Success(advance) =>
      match AddQ26(width, advance)
      case None => Failure(LineWidthOverflow)
      case Some(sum) => Success(sum)
  }

  /** The width of `cps[s..e]` set as one line. */
  function Width(c: Context, cps: seq<Scalar>, s: nat, e: nat): (r: Metric)
    requires s <= e <= |cps|
    ensures r.Success? ==> 0 <= r.value <= INT64_MAX
    decreases e - s
  {
    if s == e then Success(0)
    else
      var w := Width(c, cps, s, e - 1);
      if w.Failure? then w else Candidate(c, cps, s, e - 1, w.value)
  }

  // ----- One line -----

  datatype Stop =
    | EndOfText(width: int)
    | HardEnd(end: nat, next: nat, width: int)
    | Wrap(cut: nat, width: int)
    | Bad(error: MeasureError)

  /** One past a hard break at `i`; carriage return and line feed count as one. */
  function AfterHardBreak(cps: seq<Scalar>, i: nat): (next: nat)
    requires i < |cps| && IsHardBreak(cps[i])
    ensures i < next <= |cps|
  {
    if cps[i] == CR && i + 1 < |cps| && cps[i + 1] == LF then i + 2 else i + 1
  }

  /** The last break opportunity seen on a line: where it ends and how wide the line is there. */
  datatype Break = Break(at: nat, width: int)

  /** Where the line that starts at `s` stops, scanning on from `i` with width `w` so far. */
  function Scan(c: Context, cps: seq<Scalar>, s: nat, i: nat, w: int, last: Option<Break>): (stop: Stop)
    requires s <= i <= |cps| && 0 <= w <= INT64_MAX
    requires i == s ==> w == 0
    requires last.Some? ==> s < last.value.at <= i
    ensures stop.HardEnd? ==> s <= stop.end < stop.next <= |cps|
    ensures stop.Wrap? ==> s < stop.cut < |cps|
    decreases |cps| - i
  {
    if i == |cps| then EndOfText(w)
    else if IsHardBreak(cps[i]) then HardEnd(i, AfterHardBreak(cps, i), w)
    else
      match Candidate(c, cps, s, i, w)
      case Failure(error) => Bad(error)
      case Success(candidate) =>
        if c.wraps && candidate > c.limit && w > 0 then
          if last.Some? then Wrap(last.value.at, last.value.width) else Wrap(i, w)
        else
          Scan(c, cps, s, i + 1, candidate,
               if IsBreakOpportunity(Glyph(cps[i])) then Some(Break(i + 1, candidate)) else last)
  }

  function ScanLine(c: Context, cps: seq<Scalar>, s: nat): Stop
    requires s <= |cps|
  {
    Scan(c, cps, s, s, 0, None)
  }

  // ----- All lines -----

  /** A line shows `cps[start..end]`; the next one starts at `next`, past any hard break. */
  datatype Line = Line(start: nat, end: nat, next: nat, width: int)

  type Lines = Result<seq<Line>, MeasureError>

  function Prepend(done: seq<Line>, rest: Lines): Lines {
    if rest.Success? then Success(done + rest.value) else rest
  }

  /** The lines of `cps[s..]`, the first of them being line number `number`. Only wrapping
      checks the line limit. */
  function Layout(c: Context, cps: seq<Scalar>, s: nat, number: nat): Lines
    requires s <= |cps|
    decreases |cps| - s
  {
    match ScanLine(c, cps, s)
    case Bad(error) => Failure(error)
    case EndOfText(w) => Success([Line(s, |cps|, |cps|, w)])
    case HardEnd(end, next, w) => Prepend([Line(s, end, next, w)], Layout(c, cps, next, number + 1))
    case Wrap(cut, w) =>
      if number + 1 > c.maxLines then Failure(LineLimitExceeded)
      else Prepend([Line(s, cut, cut, w)], Layout(c, cps, cut, number + 1))
  }

  function Max(x: int, y: int): int {
    if x < y then y else x
  }

  function MaxWidth(lines: seq<Line>): int {
    if lines == [] then 0 else Max(MaxWidth(lines[..|lines| - 1]), lines[|lines| - 1].width)
  }

  lemma MaxWidthAppend(lines: seq<Line>, line: Line)
    ensures MaxWidth(lines + [line]) == Max(MaxWidth(lines), line.width)
  {
    assert (lines + [line])[..|lines|] == lines;
  }

  /** The maximum is attained (or zero) and bounds every line. */
  lemma {:induction false} MaxWidthIsMaximum(lines: seq<Line>)
    ensures forall line <- lines :: line.width <= MaxWidth(lines)
    ensures MaxWidth(lines) == 0 || exists line <- lines :: line.width == MaxWidth(lines)
  {
    if lines != [] {
      MaxWidthIsMaximum(lines[..|lines| - 1]);
      assert lines == lines[..|lines| - 1] + [lines[|lines| - 1]];
    }
  }
}
