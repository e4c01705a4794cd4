/** Which segments of a ring telegraph are drawn: all but a cyclic gap. */
module RingGap {
  import opened Basics
  import opened CombatWire

  /** The segment the gap's `offset`-th place falls on, the sum wrapping at eight bits. */
  function GapIndex(segments: u8, start: u8, offset: nat): nat
    requires segments > 0
  {
    (start + offset) % 0x100 % segments
  }

  predicate InGap(segments: u8, start: u8, gap: u8, index: nat)
    requires segments > 0
  {
    exists offset :: 0 <= offset < gap && GapIndex(segments, start, offset) == index
  }

  /** The segments below `limit` that are drawn, in order. */
  function Drawn(limit: nat, segments: u8, start: u8, gap: u8): seq<nat>
    requires limit <= segments
  {
    if limit == 0 then []
    else Drawn(limit - 1, segments, start, gap) + if InGap(segments, start, gap, limit - 1) then [] else [limit - 1]
  }

  function RingIndices(segments: u8, start: u8, gap: u8): seq<nat> {
    Drawn(segments, segments, start, gap)
  }

  function Range(lo: nat, hi: nat): (r: seq<nat>)
    requires lo <= hi
    ensures |r| == hi - lo && forall i :: 0 <= i < |r| ==> r[i] == lo + i
  {
    seq(hi - lo, i requires 0 <= i < hi - lo => lo + i)
  }

  lemma MultipleGrows(n: nat, k: int)
    ensures k >= 1 ==> n * k >= n
    ensures k <= -1 ==> n * k <= 0 - n
  {
    if k >= 1 {
      assert n * k == n + n * (k - 1);
    } else if k <= -1 {
      assert n * k == n * (k + 1) - n;
    }
  }

  lemma Remainder(q: nat, n: nat, r: nat, x: nat)
    requires r < n && x == n * q + r
    ensures x % n == r
  {
    var (p, s) := (x / n, x % n);
    assert x == n * p + s && 0 <= s < n;
    assert n * (q - p) == n * q - n * p == s - r;
    MultipleGrows(n, q - p);
  }

  /** Stepping forward from a residue by less than one turn. */
  lemma ResidueStep(start: nat, offset: nat, n: nat)
    requires offset < n
    ensures (start + offset) % n == if start % n + offset < n then start % n + offset else start % n + offset - n
  {
    var (q, first) := (start / n, start % n);
    assert start == n * q + first;
    if first + offset < n {
      Remainder(q, n, first + offset, start + offset);
    } else {
      assert n * (q + 1) == n * q + n;
      Remainder(q + 1, n, first + offset - n, start + offset);
    }
  }

  lemma GapPlace(segments: u8, start: u8, offset: nat)
    requires offset < segments && start + offset < 0x100
    ensures var first := start % segments;
            GapIndex(segments, start, offset) == if first + offset < segments then first + offset else first + offset - segments
  {
    ResidueStep(start, offset, segments);
  }

  /** Without wrapping, the gap is the cyclic interval of its length that begins at its start. */
  lemma GapIsCyclic(segments: u8, start: u8, gap: u8, index: nat)
    requires 0 < segments && gap <= segments && start + gap <= 0x100 && index < segments
    ensures var first := start % segments;
            InGap(segments, start, gap, index) <==> first <= index < first + gap || index + segments < first + gap
  {
    var first := start % segments;
    forall offset | 0 <= offset < gap
      ensures GapIndex(segments, start, offset) == if first + offset < segments then first + offset else first + offset - segments
    {
      GapPlace(segments, start, offset);
    }
    if first <= index < first + gap {
      assert GapIndex(segments, start, index - first) == index;
    }
    if index + segments < first + gap {
      assert GapIndex(segments, start, index + segments - first) == index;
    }
  }

  lemma GapIsCyclicEverywhere(segments: u8, start: u8, gap: u8)
    requires 0 < segments && gap <= segments && start + gap <= 0x100
    ensures var first := start % segments;
            forall i :: 0 <= i < segments ==>
              (InGap(segments, start, gap, i) <==> first <= i < first + gap || i + segments < first + gap)
  {
    forall i | 0 <= i < segments
      ensures var first := start % segments;
              InGap(segments, start, gap, i) <==> first <= i < first + gap || i + segments < first + gap
    {
      GapIsCyclic(segments, start, gap, i);
    }
  }

  lemma {:induction false} DrawnStretch(lo: nat, hi: nat, segments: u8, start: u8, gap: u8)
    requires lo <= hi <= segments
    requires forall i :: lo <= i < hi ==> !InGap(segments, start, gap, i)
    ensures Drawn(hi, segments, start, gap) == Drawn(lo, segments, start, gap) + Range(lo, hi)
  {
    if lo < hi {
      DrawnStretch(lo, hi - 1, segments, start, gap);
      assert Range(lo, hi) == Range(lo, hi - 1) + [hi - 1];
    }
  }

  lemma {:induction false} SkippedStretch(lo: nat, hi: nat, segments: u8, start: u8, gap: u8)
    requires lo <= hi <= segments
    requires forall i :: lo <= i < hi ==> InGap(segments, start, gap, i)
    ensures Drawn(hi, segments, start, gap) == Drawn(lo, segments, start, gap)
  {
    if lo < hi {
      SkippedStretch(lo, hi - 1, segments, start, gap);
    }
  }

  lemma GapInside(segments: u8, start: u8, gap: u8)
    requires 0 < segments && gap <= segments && start + gap <= 0x100 && start % segments + gap <= segments
    ensures var first := start % segments;
            RingIndices(segments, start, gap) == Range(0, first) + Range(first + gap, segments)
  {
    var first := start % segments;
    GapIsCyclicEverywhere(segments, start, gap);
    DrawnStretch(0, first, segments, start, gap);
    SkippedStretch(first, first + gap, segments, start, gap);
    DrawnStretch(first + gap, segments, segments, start, gap);
  }

  lemma GapAcrossZero(segments: u8, start: u8, gap: u8)
    requires 0 < segments && gap <= segments && start + gap <= 0x100 && start % segments + gap > segments
    ensures var first := start % segments;
            RingIndices(segments, start, gap) == Range(first + gap - segments, first)
  {
    var first := start % segments;
    GapIsCyclicEverywhere(segments, start, gap);
    SkippedStretch(0, first + gap - segments, segments, start, gap);
    DrawnStretch(first + gap - segments, first, segments, start, gap);
    SkippedStretch(first, segments, segments, start, gap);
  }

  /** The drawn segments are one or two ascending runs: everything outside the cyclic gap, once. */
  lemma RingClosedForm(segments: u8, start: u8, gap: u8)
    requires 0 < segments && gap <= segments && start + gap <= 0x100
    ensures var first := start % segments;
            RingIndices(segments, start, gap)
            == if first + gap <= segments then Range(0, first) + Range(first + gap, segments)
               else Range(first + gap - segments, first)
    ensures |RingIndices(segments, start, gap)| == segments - gap
  {
    if start % segments + gap <= segments {
      GapInside(segments, start, gap);
    } else {
      GapAcrossZero(segments, start, gap);
    }
  }

  /** Every ring that passes validation is in that range: its index sums never wrap and some segment is drawn. */
  lemma ValidRingLeavesItsGap(shape: Shape)
    requires shape.Ring? && shape.Validate()
    ensures var drawn := RingIndices(shape.segmentCount, shape.gapStart, shape.gapCount);
            && |drawn| == shape.segmentCount - shape.gapCount > 0
            && shape.gapStart !in drawn
            && (shape.gapStart + shape.gapCount) % shape.segmentCount in drawn
  {
    var (n, start, gap) := (shape.segmentCount, shape.gapStart, shape.gapCount);
    RingClosedForm(n, start, gap);
    Remainder(0, n, start, start);
    ResidueStep(start, gap, n);
    var drawn := RingIndices(n, start, gap);
    var after := (start + gap) % n;
    if start + gap < n {
      assert drawn[start] == after;
    } else {
      assert drawn[0] == after;
    }
  }

  // ----- gaps whose index sums wrap -----

  /** Counting back from 256, less than one turn, in terms of what 256 leaves over. */
  lemma ResidueBack(back: nat, n: u8)
    requires 0 < back < n
    ensures (0x100 - back) % n == if back <= 0x100 % n then 0x100 % n - back else 0x100 % n - back + n
  {
    var (q, over) := (0x100 / n, 0x100 % n);
    assert 0x100 == n * q + over;
    if back <= over {
      Remainder(q, n, over - back, 0x100 - back);
    } else {
      assert n * (q - 1) == n * q - n;
      assert q >= 1;
      Remainder(q - 1, n, over - back + n, 0x100 - back);
    }
  }

  /** The places before the wrap lead up to 256's remainder, those after it count up from zero. */
  lemma WrappedPlace(segments: u8, start: u8, gap: u8, offset: nat)
    requires 0 < segments && gap <= segments && start + gap > 0x100 && offset < gap
    ensures var (over, back) := (0x100 % segments, 0x100 - start - offset);
            GapIndex(segments, start, offset)
            == if back <= 0 then 0 - back else if back <= over then over - back else over - back + segments
  {
    if start + offset < 0x100 {
      ResidueBack(0x100 - start - offset, segments);
    } else {
      Remainder(0, segments, start + offset - 0x100, start + offset - 0x100);
    }
  }

  /** A wrapped gap is the run below its wrapped length and the cyclic run that ends at 256's remainder. */
  lemma WrappedGap(segments: u8, start: u8, gap: u8, index: nat)
    requires 0 < segments && gap <= segments && start + gap > 0x100 && index < segments
    ensures var (over, before, after) := (0x100 % segments, 0x100 - start, start + gap - 0x100);
            InGap(segments, start, gap, index)
            <==> index < after || over - before <= index < over || index >= segments + over - before
  {
    var (over, before, after) := (0x100 % segments, 0x100 - start, start + gap - 0x100);
    forall offset | 0 <= offset < gap
      ensures var back := before - offset;
              GapIndex(segments, start, offset)
              == if back <= 0 then 0 - back else if back <= over then over - back else over - back + segments
    {
      WrappedPlace(segments, start, gap, offset);
    }
    if index < after {
      assert GapIndex(segments, start, before + index) == index;
    }
    if over - before <= index < over {
      assert GapIndex(segments, start, before - (over - index)) == index;
    }
    if index >= segments + over - before {
      assert GapIndex(segments, start, before - (over + segments - index)) == index;
    }
  }

  lemma WrappedGapEverywhere(segments: u8, start: u8, gap: u8)
    requires 0 < segments && gap <= segments && start + gap > 0x100
    ensures var (over, before, after) := (0x100 % segments, 0x100 - start, start + gap - 0x100);
            forall i :: 0 <= i < segments ==>
              (InGap(segments, start, gap, i) <==> i < after || over - before <= i < over || i >= segments + over - before)
  {
    forall i | 0 <= i < segments
      ensures var (over, before, after) := (0x100 % segments, 0x100 - start, start + gap - 0x100);
              InGap(segments, start, gap, i) <==> i < after || over - before <= i < over || i >= segments + over - before
    {
      WrappedGap(segments, start, gap, i);
    }
  }

  /** What a wrapped gap leaves: between its two runs, and after the one that reaches furthest. */
  lemma WrappedCount(segments: u8, start: u8, gap: u8)
    requires 0 < segments && gap <= segments && start + gap > 0x100
    ensures var (over, before, after) := (0x100 % segments, 0x100 - start, start + gap - 0x100);
            |RingIndices(segments, start, gap)|
            == (if after <= over - before then over - before - after else 0)
               + (if before <= over then segments else segments + over - before) - Max(over, after)
  {
    var (over, before, after) := (0x100 % segments, 0x100 - start, start + gap - 0x100);
    var end := if before <= over then segments else segments + over - before;
    WrappedGapEverywhere(segments, start, gap);
    SkippedStretch(0, after, segments, start, gap);
    if after <= over - before {
      DrawnStretch(after, over - before, segments, start, gap);
      SkippedStretch(over - before, over, segments, start, gap);
    } else if after < over {
      SkippedStretch(after, over, segments, start, gap);
    }
    DrawnStretch(Max(over, after), end, segments, start, gap);
    SkippedStretch(end, segments, segments, start, gap);
  }

  /**
   * For every gap no longer than its ring, index sums that wrap at eight bits included, exactly the
   * gap's length is hidden if and only if no sum wraps, or the ring divides 256, or the gap is no
   * longer than what 256 leaves over; otherwise the gap folds onto itself and hides too little.
   */
  lemma RingCountExactly(segments: u8, start: u8, gap: u8)
    requires 0 < segments && gap <= segments
    ensures |RingIndices(segments, start, gap)| == segments - gap
            <==> start + gap <= 0x100 || 0x100 % segments == 0 || 0x100 % segments >= gap
    ensures |RingIndices(segments, start, gap)| >= segments - gap
  {
    if start + gap <= 0x100 {
      RingClosedForm(segments, start, gap);
    } else {
      WrappedCount(segments, start, gap);
    }
  }
}
