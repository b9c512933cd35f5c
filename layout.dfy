/**
 * Byte ranges laid out back to back, each starting where the one before it
 * ends.  Both the IRAM partition and the per-instance report buffer are
 * written this way: every offset macro is the previous offset plus the
 * previous size.
 */
module Layout {

  /** A byte range `[offset, offset + size)`. */
  datatype Region = Region(offset: nat, size: nat) {
    function End(): nat { offset + size }
  }

  /** The sum of a sequence, adding the last element last. */
  function Sum(s: seq<nat>): nat
  {
    if s == [] then 0 else Sum(s[..|s| - 1]) + s[|s| - 1]
  }

  function Sizes(rs: seq<Region>): (s: seq<nat>)
    ensures |s| == |rs|
    ensures forall i :: 0 <= i < |rs| ==> s[i] == rs[i].size
  {
    seq(|rs|, i requires 0 <= i < |rs| => rs[i].size)
  }

  /** The first region starts at `base`; every later one starts where its predecessor ends. */
  predicate BackToBack(rs: seq<Region>, base: nat)
  {
    (|rs| > 0 ==> rs[0].offset == base) &&
    forall i :: 0 < i < |rs| ==> rs[i].offset == rs[i - 1].End()
  }

  /** Where a layout starting at `base` ends. */
  function EndOf(rs: seq<Region>, base: nat): nat
  {
    if rs == [] then base else rs[|rs| - 1].End()
  }

  /** Two ranges share no byte. */
  predicate Disjoint(a: Region, b: Region)
  {
    a.End() <= b.offset || b.End() <= a.offset
  }

  /** In a back-to-back layout region `i` starts at `base` plus the sizes of the regions before it. */
  lemma {:induction false} OffsetIsPrefixSum(rs: seq<Region>, base: nat, i: nat)
    requires BackToBack(rs, base)
    requires i < |rs|
    ensures rs[i].offset == base + Sum(Sizes(rs)[..i])
    decreases i
  {
    if i > 0 {
      OffsetIsPrefixSum(rs, base, i - 1);
      var s := Sizes(rs)[..i];
      assert s[..i - 1] == Sizes(rs)[..i - 1];
      assert s[i - 1] == rs[i - 1].size;
    }
  }

  /**
   * In a back-to-back layout every offset is `base` plus the sizes of all
   * regions before it, and the layout ends at `base` plus the sum of all sizes.
   */
  lemma BackToBackOffsets(rs: seq<Region>, base: nat)
    requires BackToBack(rs, base)
    ensures forall i :: 0 <= i < |rs| ==> rs[i].offset == base + Sum(Sizes(rs)[..i])
    ensures EndOf(rs, base) == base + Sum(Sizes(rs))
  {
    forall i | 0 <= i < |rs|
      ensures rs[i].offset == base + Sum(Sizes(rs)[..i])
    {
      OffsetIsPrefixSum(rs, base, i);
    }
    if rs != [] {
      var n := |rs| - 1;
      OffsetIsPrefixSum(rs, base, n);
      assert Sizes(rs)[..n] == Sizes(rs)[..|Sizes(rs)| - 1];
    }
  }

  /** A region of a back-to-back layout ends no later than any later region starts. */
  lemma {:induction false} BackToBackOrdered(rs: seq<Region>, base: nat, i: nat, j: nat)
    requires BackToBack(rs, base)
    requires i < j < |rs|
    ensures rs[i].End() <= rs[j].offset
    decreases j - i
  {
    if j > i + 1 {
      BackToBackOrdered(rs, base, i, j - 1);
    }
  }

  /**
   * The regions of a back-to-back layout are pairwise disjoint, come in
   * increasing address order, and lie within `[base, EndOf(rs, base))`.
   */
  lemma BackToBackDisjoint(rs: seq<Region>, base: nat)
    requires BackToBack(rs, base)
    ensures forall i, j :: 0 <= i < j < |rs| ==> rs[i].End() <= rs[j].offset
    ensures forall i, j :: 0 <= i < |rs| && 0 <= j < |rs| && i != j ==> Disjoint(rs[i], rs[j])
    ensures forall i :: 0 <= i < |rs| ==> base <= rs[i].offset && rs[i].End() <= EndOf(rs, base)
  {
    forall i, j | 0 <= i < j < |rs|
      ensures rs[i].End() <= rs[j].offset
    {
      BackToBackOrdered(rs, base, i, j);
    }
    forall i | 0 <= i < |rs|
      ensures base <= rs[i].offset && rs[i].End() <= EndOf(rs, base)
    {
      if i > 0 { BackToBackOrdered(rs, base, 0, i); }
      if i < |rs| - 1 { BackToBackOrdered(rs, base, i, |rs| - 1); }
    }
  }
}
