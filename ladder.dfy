/** The ladder of tree-reduction buffer sizes (Registration.setSizeAndPrepare):
    the voxel count, then repeated division by the work-group size g for as
    long as the top of the stack is a multiple of g above the reduction
    threshold. Level i of the scratch buffers holds `sizes[i + 1]` floats. */
module ReductionLadder {

  /** `s` is the ladder of `total` for group size g and the given threshold:
      it starts at the total, always holds the unconditional first division,
      every further entry is its predecessor over g, every entry that was
      divided again passed the loop test, and the last entry fails it. */
  predicate IsLadder(s: seq<int>, total: int, g: int, threshold: int)
    requires g > 0
  {
    && |s| >= 2 && s[0] == total
    && (forall i :: 1 <= i < |s| ==> s[i] == s[i - 1] / g)
    && (forall i :: 1 <= i < |s| - 1 ==> s[i] % g == 0 && s[i] > threshold)
    && (s[|s| - 1] % g != 0 || s[|s| - 1] <= threshold)
  }

  /** Multiplying by a factor above one does not make a non-negative number smaller. */
  lemma ScaleUp(g: int, q: int)
    requires g >= 1 && q >= 0
    ensures g * q >= q
  {
    assert g * q == (g - 1) * q + q;
    assert (g - 1) * q >= 0;
  }

  /** A number at least g leaves a quotient of at least one. */
  lemma QuotientAtLeastOne(v: int, g: int)
    requires g > 1 && v >= g
    ensures v / g >= 1
  {
    var q, r := v / g, v % g;
    assert v == g * q + r && 0 <= r < g;
    if q <= 0 {
      assert false;
    }
  }

  /** Division by g > 1 makes a positive number smaller. */
  lemma QuotientSmaller(v: int, g: int)
    requires g > 1 && v >= 1
    ensures 0 <= v / g < v
  {
    var q, r := v / g, v % g;
    assert v == g * q + r && 0 <= r < g;
    if q < 0 {
      assert false;
    }
    if q >= v {
      ScaleUp(g - 1, q);
      assert false;
    }
  }

  /** A positive multiple of g divided by g is still positive, and smaller. */
  lemma QuotientPositive(v: int, g: int)
    requires g > 1 && v >= 1 && v % g == 0
    ensures v / g >= 1 && v / g < v
  {
    QuotientSmaller(v, g);
    if v >= g {
      QuotientAtLeastOne(v, g);
    }
  }

  /** The push loop of setSizeAndPrepare. It stops exactly when the top of
      the stack is no multiple of g or does not exceed the threshold. Without
      `threshold >= 0 || total >= g` the top reaches 0, which is a multiple
      of g above a negative threshold, and the loop never ends. */
  method BuildLadder(total: nat, g: int, threshold: int) returns (sizes: seq<nat>)
    requires g > 1 && (threshold >= 0 || total >= g)
    ensures IsLadder(sizes, total, g, threshold)
  {
    sizes := [total];
    sizes := sizes + [sizes[|sizes| - 1] / g];
    while sizes[|sizes| - 1] % g == 0 && sizes[|sizes| - 1] > threshold
      invariant |sizes| >= 2 && sizes[0] == total
      invariant forall i :: 1 <= i < |sizes| ==> sizes[i] == sizes[i - 1] / g
      invariant forall i :: 1 <= i < |sizes| - 1 ==> sizes[i] % g == 0 && sizes[i] > threshold
      invariant sizes[|sizes| - 1] >= 0
      invariant threshold >= 0 || sizes[|sizes| - 1] >= 1
      decreases sizes[|sizes| - 1]
    {
      var top := sizes[|sizes| - 1];
      QuotientPositive(top, g);
      sizes := sizes + [top / g];
    }
  }

  /** The ladder is determined by its inputs: two ladders of the same total,
      group size and threshold are equal. */
  lemma {:induction false} LadderUnique(s: seq<int>, t: seq<int>, total: int, g: int, threshold: int)
    requires g > 0 && IsLadder(s, total, g, threshold) && IsLadder(t, total, g, threshold)
    ensures s == t
  {
    var k := 0;
    while k < |s| && k < |t|
      invariant 0 <= k <= |s| && k <= |t|
      invariant s[..k] == t[..k]
    {
      if k > 0 {
        assert s[k] == s[k - 1] / g == t[k - 1] / g == t[k];
      }
      assert s[..k + 1] == s[..k] + [s[k]] && t[..k + 1] == t[..k] + [t[k]];
      k := k + 1;
    }
    // where one ladder stops the other would have to go on past an entry
    // that fails the loop test, so both stop at the same length
    if |s| != |t| {
      assert false;
    }
    assert s == s[..k] && t == t[..k];
  }

  /** Under the loop's termination condition no ladder entry but possibly the
      last one is zero when the total is positive. */
  lemma {:induction false} LadderPositive(s: seq<int>, total: int, g: int, threshold: int, i: nat)
    requires g > 1 && IsLadder(s, total, g, threshold) && total >= 1
    requires threshold >= 0 || total >= g
    requires i < |s| - 1
    ensures s[i] >= 1
  {
    if i > 0 && threshold < 0 {
      if i == 1 {
        QuotientAtLeastOne(total, g);
      } else {
        LadderPositive(s, total, g, threshold, i - 1);
        QuotientPositive(s[i - 1], g);
      }
    }
  }

  /** The ladder is strictly decreasing when there is anything to reduce. */
  lemma LadderDecreasing(s: seq<int>, total: int, g: int, threshold: int)
    requires g > 1 && IsLadder(s, total, g, threshold) && total >= 1
    requires threshold >= 0 || total >= g
    ensures forall i :: 1 <= i < |s| ==> s[i] < s[i - 1]
  {
    forall i | 1 <= i < |s| ensures s[i] < s[i - 1] {
      LadderPositive(s, total, g, threshold, i - 1);
      QuotientSmaller(s[i - 1], g);
    }
  }
}
