/** The metric tables of one font family: fixed tables filled in order, searched from the start. */
module FontMetrics {
  import opened Wrappers
  import opened FixedPoint

  const MAX_FONT_RANGES := 32
  const MAX_KERNING_PAIRS := 64

  datatype GlyphRange = GlyphRange(first: nat, last: nat, advance: int)

  datatype KerningPair = KerningPair(left: nat, right: nat, adjustment: int)

  /** The value of a family's tables. */
  datatype Family = Family(
    unitsPerEm: nat,
    lineHeight: int,
    spaceAdvance: int,
    ranges: seq<GlyphRange>,
    kerning: seq<KerningPair>)
  {
    /** The widths the C++ fields have. */
    predicate InRange() {
      && IsUint32(unitsPerEm) && IsInt32(lineHeight) && IsInt32(spaceAdvance)
      && (forall r <- ranges :: IsInt32(r.advance))
      && (forall k <- kerning :: IsInt32(k.adjustment))
    }
  }

  predicate Covers(range: GlyphRange, codePoint: nat) {
    range.first <= codePoint <= range.last
  }

  /** The earliest range that covers the code point. */
  function FindRange(ranges: seq<GlyphRange>, codePoint: nat): Option<GlyphRange> {
    if ranges == [] then None
    else if Covers(ranges[0], codePoint) then Some(ranges[0])
    else FindRange(ranges[1..], codePoint)
  }

  function FindKerning(pairs: seq<KerningPair>, left: nat, right: nat): Option<KerningPair> {
    if pairs == [] then None
    else if pairs[0].left == left && pairs[0].right == right then Some(pairs[0])
    else FindKerning(pairs[1..], left, right)
  }

  predicate Contains(f: Family, codePoint: nat) {
    FindRange(f.ranges, codePoint).Some?
  }

  function Advance(f: Family, codePoint: nat): int {
    var r := FindRange(f.ranges, codePoint);
    if r.Some? then r.value.advance else 0
  }

  function KerningAdjustment(f: Family, left: nat, right: nat): int {
    var k := FindKerning(f.kerning, left, right);
    if k.Some? then k.value.adjustment else 0
  }

  /** Adding a range changes only the code points no earlier range covers. */
  lemma {:induction false} AppendedRange(ranges: seq<GlyphRange>, extra: GlyphRange, codePoint: nat)
    ensures FindRange(ranges + [extra], codePoint)
         == if FindRange(ranges, codePoint).Some? then FindRange(ranges, codePoint)
            else if Covers(extra, codePoint) then Some(extra) else None
  {
    if ranges == [] {
      assert [extra][1..] == [];
    } else {
      assert (ranges + [extra])[1..] == ranges[1..] + [extra];
      AppendedRange(ranges[1..], extra, codePoint);
    }
  }

  lemma {:induction false} AppendedKerning(pairs: seq<KerningPair>, extra: KerningPair, left: nat, right: nat)
    ensures FindKerning(pairs + [extra], left, right)
         == if FindKerning(pairs, left, right).Some? then FindKerning(pairs, left, right)
            else if extra.left == left && extra.right == right then Some(extra) else None
  {
    if pairs == [] {
      assert [extra][1..] == [];
    } else {
      assert (pairs + [extra])[1..] == pairs[1..] + [extra];
      AppendedKerning(pairs[1..], extra, left, right);
    }
  }

  lemma {:induction false} FoundRange(ranges: seq<GlyphRange>, codePoint: nat)
    ensures FindRange(ranges, codePoint).Some? <==> exists r <- ranges :: Covers(r, codePoint)
    ensures FindRange(ranges, codePoint).Some? ==> FindRange(ranges, codePoint).value in ranges
  {
    if ranges != [] {
      FoundRange(ranges[1..], codePoint);
      assert forall r :: r in ranges <==> r == ranges[0] || r in ranges[1..];
    }
  }

  lemma {:induction false} FoundKerning(pairs: seq<KerningPair>, left: nat, right: nat)
    ensures FindKerning(pairs, left, right).Some? ==> FindKerning(pairs, left, right).value in pairs
  {
    if pairs != [] {
      FoundKerning(pairs[1..], left, right);
    }
  }

  /** Looked-up metrics keep the width of the tables they come from. */
  lemma LookupsInRange(f: Family, left: nat, right: nat)
    requires f.InRange()
    ensures IsInt32(Advance(f, right)) && IsInt32(KerningAdjustment(f, left, right))
  {
    FoundRange(f.ranges, right);
    FoundKerning(f.kerning, left, right);
  }

  class FontFamilyMetrics {
    var unitsPerEm: nat
    var lineHeight: int
    var spaceAdvance: int
    const ranges: array<GlyphRange>
    var rangeCount: nat
    const kerning: array<KerningPair>
    var kerningCount: nat

    ghost predicate Valid()
      reads this
    {
      && ranges.Length == MAX_FONT_RANGES && rangeCount <= MAX_FONT_RANGES
      && kerning.Length == MAX_KERNING_PAIRS && kerningCount <= MAX_KERNING_PAIRS
    }

    ghost function Metrics(): Family
      reads this, ranges, kerning
      requires Valid()
    {
      Family(unitsPerEm, lineHeight, spaceAdvance, ranges[..rangeCount], kerning[..kerningCount])
    }

    constructor ()
      ensures Valid() && fresh(ranges) && fresh(kerning)
      ensures Metrics() == Family(1000, 1448, 300, [], [])
    {
      unitsPerEm, lineHeight, spaceAdvance := 1000, 1448, 300;
      ranges := new GlyphRange[MAX_FONT_RANGES](_ => GlyphRange(0, 0, 0));
      kerning := new KerningPair[MAX_KERNING_PAIRS](_ => KerningPair(0, 0, 0));
      rangeCount, kerningCount := 0, 0;
    }

    /** Refuses an empty range, a negative advance and a full table; otherwise appends. */
    method AddRange(range: GlyphRange) returns (ok: bool)
      requires Valid()
      modifies this`rangeCount, ranges
      ensures Valid()
      ensures ok <==> range.first <= range.last && range.advance >= 0
                      && old(rangeCount) < MAX_FONT_RANGES
      ensures Metrics() == if ok then old(Metrics()).(ranges := old(Metrics()).ranges + [range])
                           else old(Metrics())
    {
      if range.first > range.last || range.advance < 0 || rangeCount == ranges.Length {
        return false;
      }
      ranges[rangeCount] := range;
      rangeCount := rangeCount + 1;
      return true;
    }

    method AddKerning(pair: KerningPair) returns (ok: bool)
      requires Valid()
      modifies this`kerningCount, kerning
      ensures Valid() && (ok <==> old(kerningCount) < MAX_KERNING_PAIRS)
      ensures Metrics() == if ok then old(Metrics()).(kerning := old(Metrics()).kerning + [pair])
                           else old(Metrics())
    {
      if kerningCount == kerning.Length {
        return false;
      }
      kerning[kerningCount] := pair;
      kerningCount := kerningCount + 1;
      return true;
    }

    method HasGlyph(codePoint: nat) returns (found: bool)
      requires Valid()
      ensures found <==> Contains(Metrics(), codePoint)
    {
      var index := 0;
      while index < rangeCount
        invariant index <= rangeCount
        invariant FindRange(ranges[..rangeCount], codePoint)
               == FindRange(ranges[..rangeCount][index..], codePoint)
      {
        if codePoint >= ranges[index].first && codePoint <= ranges[index].last {
          return true;
        }
        assert ranges[..rangeCount][index..][1..] == ranges[..rangeCount][index + 1..];
        index := index + 1;
      }
      return false;
    }

    method AdvanceOf(codePoint: nat) returns (advance: int)
      requires Valid()
      ensures advance == Advance(Metrics(), codePoint)
    {
      var index := 0;
      while index < rangeCount
        invariant index <= rangeCount
        invariant FindRange(ranges[..rangeCount], codePoint)
               == FindRange(ranges[..rangeCount][index..], codePoint)
      {
        if codePoint >= ranges[index].first && codePoint <= ranges[index].last {
          return ranges[index].advance;
        }
        assert ranges[..rangeCount][index..][1..] == ranges[..rangeCount][index + 1..];
        index := index + 1;
      }
      return 0;
    }

    method KerningOf(left: nat, right: nat) returns (adjustment: int)
      requires Valid()
      ensures adjustment == KerningAdjustment(Metrics(), left, right)
    {
      var index := 0;
      while index < kerningCount
        invariant index <= kerningCount
        invariant FindKerning(kerning[..kerningCount], left, right)
               == FindKerning(kerning[..kerningCount][index..], left, right)
      {
        if kerning[index].left == left && kerning[index].right == right {
          return kerning[index].adjustment;
        }
        assert kerning[..kerningCount][index..][1..] == kerning[..kerningCount][index + 1..];
        index := index + 1;
      }
      return 0;
    }
  }
}
