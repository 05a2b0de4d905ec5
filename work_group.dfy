/** The choice of a balanced 3-D OpenCL work-group shape for a power-of-two
    group size (Registration.computeLocalSize). A shape is given by three
    exponents: local size i along axis i is 2^exponent i. */
module WorkGroup {

  /** Exponents of the three local sizes, in axis order. */
  datatype Exps = Exps(x: nat, y: nat, z: nat)

  function Pow2(e: nat): (r: nat)
    ensures r >= 1
  {
    if e == 0 then 1 else 2 * Pow2(e - 1)
  }

  /** floor(log2(g)), the integer the source derives from Math.log. */
  function Log2(g: nat): nat
    requires g >= 1
  {
    if g == 1 then 0 else 1 + Log2(g / 2)
  }

  predicate IsPowerOfTwo(g: nat) {
    g >= 1 && Pow2(Log2(g)) == g
  }

  function Volume(dims: seq<nat>): nat
    requires |dims| == 3
  {
    dims[0] * dims[1] * dims[2]
  }

  function Sizes(x: Exps): seq<nat> {
    [Pow2(x.x), Pow2(x.y), Pow2(x.z)]
  }

  /** The ideal exponents ceil(e/3), ceil((e - e0)/2) and the remainder. */
  function IdealExps(e: nat): (r: Exps)
    ensures r.x + r.y + r.z == e
    ensures r.x >= r.y >= r.z
    ensures r.x <= r.z + 1
  {
    var e0 := (e + 2) / 3;
    var e1 := (e - e0 + 1) / 2;
    Exps(e0, e1, e - e0 - e1)
  }

  function Sq(d: int): nat {
    d * d
  }

  /** Squared deviation of a candidate from the ideal exponents. */
  function Cost(ideal: Exps, x: Exps): (r: nat)
    ensures r == 0 <==> x == ideal
  {
    Sq(ideal.x - x.x) + Sq(ideal.y - x.y) + Sq(ideal.z - x.z)
  }

  /** The ideal sizes tile the global extent along every axis. */
  predicate IdealFits(global: seq<nat>, ideal: Exps)
    requires |global| == 3
  {
    global[0] % Pow2(ideal.x) == 0 && global[1] % Pow2(ideal.y) == 0 && global[2] % Pow2(ideal.z) == 0
  }

  /** A usable shape: its exponents sum to e and each size divides its extent. */
  predicate ValidSplit(global: seq<nat>, e: nat, x: Exps)
    requires |global| == 3
  {
    x.x + x.y + x.z == e && IdealFits(global, x)
  }

  /** Lexicographic order on exponent triples. */
  predicate LexLess(a: Exps, b: Exps) {
    a.x < b.x || (a.x == b.x && (a.y < b.y || (a.y == b.y && a.z < b.z)))
  }

  /** The shape the search settles on: a usable shape of least cost, and among
      those of least cost the lexicographically greatest (the search visits
      exponents in descending order and only replaces on a strict improvement). */
  ghost predicate BestSplit(global: seq<nat>, e: nat, ideal: Exps, x: Exps)
    requires |global| == 3
  {
    && ValidSplit(global, e, x)
    && (forall y :: ValidSplit(global, e, y) ==> Cost(ideal, x) <= Cost(ideal, y))
    && (forall y :: ValidSplit(global, e, y) && Cost(ideal, y) == Cost(ideal, x) ==> y == x || LexLess(y, x))
  }

  lemma {:induction false} Pow2Add(a: nat, b: nat)
    ensures Pow2(a + b) == Pow2(a) * Pow2(b)
  {
    if a > 0 {
      Pow2Add(a - 1, b);
    }
  }

  lemma MulNonneg(a: int, b: int)
    requires a >= 0 && b >= 0
    ensures a * b >= 0
  {
  }

  lemma MultipleMod(d: nat, q: int)
    requires d > 0
    ensures (d * q) % d == 0
  {
    var x := d * q;
    var t := q - x / d;
    assert d * t == x % d;
    if t >= 1 {
      assert d * t == d * (t - 1) + d;
      MulNonneg(d, t - 1);
    } else if t <= -1 {
      assert d * t == -(d * (-t - 1)) - d;
      MulNonneg(d, -t - 1);
    }
  }

  lemma ModZeroMultiple(p: int, d: nat) returns (q: int)
    requires d > 0 && p % d == 0
    ensures p == d * q
  {
    q := p / d;
  }

  lemma OddProduct(a: int, b: int)
    requires a % 2 == 1 && b % 2 == 1
    ensures (a * b) % 2 == 1
  {
    var p, q := a / 2, b / 2;
    assert a == 2 * p + 1 && b == 2 * q + 1;
    assert a * b == 2 * (2 * p * q + p + q) + 1;
  }

  /** If 2^e (e > 0) divides a*b*c then one of the three is even. */
  lemma SomeEven(a: nat, b: nat, c: nat, e: nat)
    requires e > 0 && (a * b * c) % Pow2(e) == 0
    ensures a % 2 == 0 || b % 2 == 0 || c % 2 == 0
  {
    var q := ModZeroMultiple(a * b * c, Pow2(e));
    assert a * b * c == 2 * (Pow2(e - 1) * q);
    MultipleMod(2, Pow2(e - 1) * q);
    if a % 2 == 1 && b % 2 == 1 && c % 2 == 1 {
      OddProduct(a, b);
      OddProduct(a * b, c);
    }
  }

  lemma DoubleFactor(m: nat, i: nat)
    requires m % Pow2(i) == 0
    ensures (2 * m) % Pow2(i + 1) == 0
  {
    var q := ModZeroMultiple(m, Pow2(i));
    assert 2 * m == Pow2(i + 1) * q;
    MultipleMod(Pow2(i + 1), q);
  }

  /** Halving an even first factor lowers by one the power of two known to
      divide the product. */
  lemma HalveFirst(a: nat, b: nat, c: nat, e: nat)
    requires e > 0 && a % 2 == 0 && (a * b * c) % Pow2(e) == 0
    ensures ((a / 2) * b * c) % Pow2(e - 1) == 0
  {
    var m := a / 2;
    var r := m * b * c;
    assert a * b * c == 2 * r;
    var q := ModZeroMultiple(a * b * c, Pow2(e));
    assert 2 * r == 2 * (Pow2(e - 1) * q);
    MultipleMod(Pow2(e - 1), q);
  }

  lemma ProductSwap12(a: nat, b: nat, c: nat)
    ensures a * b * c == b * a * c
  {
  }

  lemma ProductSwap13(a: nat, b: nat, c: nat)
    ensures a * b * c == c * b * a
  {
  }

  /** When 2^e divides the volume, some usable shape exists; so the search of
      computeLocalSize never ends without a choice. */
  lemma {:induction false} SplitExists(global: seq<nat>, e: nat) returns (x: Exps)
    requires |global| == 3 && Volume(global) % Pow2(e) == 0
    ensures ValidSplit(global, e, x)
    decreases e
  {
    var a, b, c := global[0], global[1], global[2];
    if e == 0 {
      x := Exps(0, 0, 0);
    } else {
      SomeEven(a, b, c, e);
      if a % 2 == 0 {
        HalveFirst(a, b, c, e);
        var x' := SplitExists([a / 2, b, c], e - 1);
        DoubleFactor(a / 2, x'.x);
        x := Exps(x'.x + 1, x'.y, x'.z);
      } else if b % 2 == 0 {
        ProductSwap12(a, b, c);
        HalveFirst(b, a, c, e);
        ProductSwap12(b / 2, a, c);
        var x' := SplitExists([a, b / 2, c], e - 1);
        DoubleFactor(b / 2, x'.y);
        x := Exps(x'.x, x'.y + 1, x'.z);
      } else {
        ProductSwap13(a, b, c);
        HalveFirst(c, b, a, e);
        ProductSwap13(c / 2, b, a);
        var x' := SplitExists([a, b, c / 2], e - 1);
        DoubleFactor(c / 2, x'.z);
        x := Exps(x'.x, x'.y, x'.z + 1);
      }
    }
  }

  /** The candidate exponents of one axis, as the source collects them:
      e, e-1, ..., 0, keeping each exponent whose power of two divides n. */
  method Candidates(n: nat, e: nat) returns (cands: seq<nat>)
    ensures forall p, q :: 0 <= p < q < |cands| ==> cands[p] > cands[q]
    ensures forall x: nat :: x in cands <==> x <= e && n % Pow2(x) == 0
  {
    cands := [];
    var x: int := e;
    while x >= 0
      invariant -1 <= x <= e
      invariant forall p, q :: 0 <= p < q < |cands| ==> cands[p] > cands[q]
      invariant forall p :: 0 <= p < |cands| ==> cands[p] > x
      invariant forall y: nat :: y in cands <==> x < y <= e && n % Pow2(y) == 0
    {
      if n % Pow2(x) == 0 {
        cands := cands + [x];
      }
      x := x - 1;
    }
  }

  /** Index triple (a', b', c') is visited before (a, b, c) by the three nested loops. */
  predicate Before(a': int, b': int, c': int, a: int, b: int, c: int) {
    a' < a || (a' == a && (b' < b || (b' == b && c' < c)))
  }

  predicate InRange(c0: seq<nat>, c1: seq<nat>, c2: seq<nat>, a: int, b: int, c: int) {
    0 <= a < |c0| && 0 <= b < |c1| && 0 <= c < |c2|
  }

  function At(c0: seq<nat>, c1: seq<nat>, c2: seq<nat>, a: int, b: int, c: int): Exps
    requires InRange(c0, c1, c2, a, b, c)
  {
    Exps(c0[a], c1[b], c2[c])
  }

  predicate SumsTo(c0: seq<nat>, c1: seq<nat>, c2: seq<nat>, e: nat, a: int, b: int, c: int)
  {
    InRange(c0, c1, c2, a, b, c) && c0[a] + c1[b] + c2[c] == e
  }

  /** The search state after visiting every triple before (a, b, c): the
      chosen triple is the first visited one of least cost. */
  ghost predicate SearchState(c0: seq<nat>, c1: seq<nat>, c2: seq<nat>, e: nat, ideal: Exps,
                              a: int, b: int, c: int, found: bool, chosen: Exps, minCost: int,
                              ca: int, cb: int, cc: int)
  {
    && (found ==> SumsTo(c0, c1, c2, e, ca, cb, cc) && Before(ca, cb, cc, a, b, c)
                  && chosen == At(c0, c1, c2, ca, cb, cc) && minCost == Cost(ideal, chosen))
    && (forall a', b', c' :: SumsTo(c0, c1, c2, e, a', b', c') && Before(a', b', c', a, b, c) ==>
          found && minCost <= Cost(ideal, At(c0, c1, c2, a', b', c')))
    && (forall a', b', c' :: SumsTo(c0, c1, c2, e, a', b', c') && Before(a', b', c', ca, cb, cc) ==>
          minCost < Cost(ideal, At(c0, c1, c2, a', b', c')))
  }

  /** The innermost loop body of the search: the triple (a, b, c) is costed
      when its exponents sum to e, and chosen when it is the first such triple
      or strictly cheaper than the one chosen so far. */
  method Visit(c0: seq<nat>, c1: seq<nat>, c2: seq<nat>, e: nat, ideal: Exps, a: nat, b: nat, c: nat,
               found: bool, chosen: Exps, minCost: int, ghost ca: int, ghost cb: int, ghost cc: int)
    returns (found': bool, chosen': Exps, minCost': int, ghost ca': int, ghost cb': int, ghost cc': int)
    requires InRange(c0, c1, c2, a, b, c)
    requires SearchState(c0, c1, c2, e, ideal, a, b, c, found, chosen, minCost, ca, cb, cc)
    ensures SearchState(c0, c1, c2, e, ideal, a, b, c + 1, found', chosen', minCost', ca', cb', cc')
  {
    found', chosen', minCost', ca', cb', cc' := found, chosen, minCost, ca, cb, cc;
    if e == c0[a] + c1[b] + c2[c] {
      var cost := Cost(ideal, Exps(c0[a], c1[b], c2[c]));
      if !found || cost < minCost {
        found', minCost', chosen' := true, cost, Exps(c0[a], c1[b], c2[c]);
        ca', cb', cc' := a, b, c;
      }
    }
  }

  /** Finishing the innermost loop moves the search to the next b. */
  lemma RowDone(c0: seq<nat>, c1: seq<nat>, c2: seq<nat>, e: nat, ideal: Exps, a: int, b: int,
                found: bool, chosen: Exps, minCost: int, ca: int, cb: int, cc: int)
    requires SearchState(c0, c1, c2, e, ideal, a, b, |c2|, found, chosen, minCost, ca, cb, cc)
    ensures SearchState(c0, c1, c2, e, ideal, a, b + 1, 0, found, chosen, minCost, ca, cb, cc)
  {
  }

  /** Finishing the middle loop moves the search to the next a. */
  lemma PlaneDone(c0: seq<nat>, c1: seq<nat>, c2: seq<nat>, e: nat, ideal: Exps, a: int,
                  found: bool, chosen: Exps, minCost: int, ca: int, cb: int, cc: int)
    requires SearchState(c0, c1, c2, e, ideal, a, |c1|, 0, found, chosen, minCost, ca, cb, cc)
    ensures SearchState(c0, c1, c2, e, ideal, a + 1, 0, 0, found, chosen, minCost, ca, cb, cc)
  {
  }

  /** The nested search over the candidate lists: every triple of candidates
      whose exponents sum to e is costed, and a triple replaces the chosen
      one only when its cost is strictly lower. */
  method Search(c0: seq<nat>, c1: seq<nat>, c2: seq<nat>, e: nat, ideal: Exps)
    returns (found: bool, chosen: Exps, ghost ca: int, ghost cb: int, ghost cc: int)
    ensures found <==> exists a', b', c' :: SumsTo(c0, c1, c2, e, a', b', c')
    ensures found ==> SumsTo(c0, c1, c2, e, ca, cb, cc) && chosen == At(c0, c1, c2, ca, cb, cc)
    ensures found ==> forall a', b', c' :: SumsTo(c0, c1, c2, e, a', b', c') ==>
              Cost(ideal, chosen) <= Cost(ideal, At(c0, c1, c2, a', b', c'))
    ensures found ==> forall a', b', c' :: SumsTo(c0, c1, c2, e, a', b', c') && Before(a', b', c', ca, cb, cc) ==>
              Cost(ideal, chosen) < Cost(ideal, At(c0, c1, c2, a', b', c'))
  {
    found, chosen, ca, cb, cc := false, Exps(0, 0, 0), -1, -1, -1;
    var minCost: int := 0;
    var a := 0;
    while a < |c0|
      invariant 0 <= a <= |c0|
      invariant SearchState(c0, c1, c2, e, ideal, a, 0, 0, found, chosen, minCost, ca, cb, cc)
    {
      var b := 0;
      while b < |c1|
        invariant 0 <= b <= |c1|
        invariant SearchState(c0, c1, c2, e, ideal, a, b, 0, found, chosen, minCost, ca, cb, cc)
      {
        var c := 0;
        while c < |c2|
          invariant 0 <= c <= |c2|
          invariant SearchState(c0, c1, c2, e, ideal, a, b, c, found, chosen, minCost, ca, cb, cc)
        {
          found, chosen, minCost, ca, cb, cc := Visit(c0, c1, c2, e, ideal, a, b, c, found, chosen, minCost, ca, cb, cc);
          c := c + 1;
        }
        RowDone(c0, c1, c2, e, ideal, a, b, found, chosen, minCost, ca, cb, cc);
        b := b + 1;
      }
      PlaneDone(c0, c1, c2, e, ideal, a, found, chosen, minCost, ca, cb, cc);
      a := a + 1;
    }
    if found {
      assert SumsTo(c0, c1, c2, e, ca, cb, cc);
    }
  }

  /** Three powers of two multiply to the power of the summed exponents. */
  lemma SizesProduct(x: Exps)
    ensures Sizes(x)[0] * Sizes(x)[1] * Sizes(x)[2] == Pow2(x.x + x.y + x.z)
  {
    Pow2Add(x.x, x.y);
    Pow2Add(x.x + x.y, x.z);
  }

  /** The fallback of computeLocalSize: the candidate lists of the three axes
      and the nested search over them. */
  method SearchSplit(global: seq<nat>, e: nat) returns (x: Exps)
    requires |global| == 3 && Volume(global) % Pow2(e) == 0
    ensures BestSplit(global, e, IdealExps(e), x)
  {
    var ideal := IdealExps(e);
    var c0 := Candidates(global[0], e);
    var c1 := Candidates(global[1], e);
    var c2 := Candidates(global[2], e);
    var found, chosen, ca, cb, cc := Search(c0, c1, c2, e, ideal);
    var w := SplitExists(global, e);
    WitnessIndices(c0, c1, c2, global, e, w);
    BestFromSearch(c0, c1, c2, global, e, ideal, chosen, ca, cb, cc);
    x := chosen;
  }

  /** computeLocalSize: the ideal shape when it tiles the extent, otherwise
      the best usable shape found by the search. Returns three powers of two
      whose product is the group size, each dividing its extent. */
  method ComputeLocalSize(groupSize: nat, global: seq<nat>) returns (local: seq<nat>, ghost exps: Exps)
    requires groupSize > 1 && IsPowerOfTwo(groupSize)
    requires |global| == 3 && Volume(global) % groupSize == 0
    ensures local == Sizes(exps)
    ensures |local| == 3 && local[0] * local[1] * local[2] == groupSize
    ensures forall i :: 0 <= i < 3 ==> global[i] % local[i] == 0
    ensures IdealFits(global, IdealExps(Log2(groupSize))) ==> exps == IdealExps(Log2(groupSize))
    ensures BestSplit(global, Log2(groupSize), IdealExps(Log2(groupSize)), exps)
  {
    var e := Log2(groupSize);
    var ideal := IdealExps(e);
    var x: Exps;
    if IdealFits(global, ideal) {
      x := ideal;
      IdealIsBest(global, e);
    } else {
      x := SearchSplit(global, e);
    }
    exps := x;
    local := Sizes(x);
    SizesProduct(x);
  }

  lemma SqPositive(d: int)
    ensures d != 0 ==> Sq(d) > 0
  {
    if d > 0 {
      MulNonneg(d, d - 1);
      assert d * d == d * (d - 1) + d;
    } else if d < 0 {
      MulNonneg(-d, -d - 1);
      assert d * d == (-d) * (-d - 1) - d;
    }
  }

  /** When the ideal shape tiles the extent it is the unique shape of cost
      zero, hence the best split. */
  lemma IdealIsBest(global: seq<nat>, e: nat)
    requires |global| == 3 && IdealFits(global, IdealExps(e))
    ensures BestSplit(global, e, IdealExps(e), IdealExps(e))
  {
    var ideal := IdealExps(e);
    assert Cost(ideal, ideal) == 0;
    forall y | ValidSplit(global, e, y) && Cost(ideal, y) == 0
      ensures y == ideal
    {
      SqPositive(ideal.x - y.x);
      SqPositive(ideal.y - y.y);
      SqPositive(ideal.z - y.z);
    }
  }

  /** A usable shape has its exponents among the candidate lists. */
  lemma WitnessIndices(c0: seq<nat>, c1: seq<nat>, c2: seq<nat>, global: seq<nat>, e: nat, w: Exps)
    requires |global| == 3
    requires forall x: nat :: x in c0 <==> x <= e && global[0] % Pow2(x) == 0
    requires forall x: nat :: x in c1 <==> x <= e && global[1] % Pow2(x) == 0
    requires forall x: nat :: x in c2 <==> x <= e && global[2] % Pow2(x) == 0
    requires ValidSplit(global, e, w)
    ensures exists a', b', c' :: SumsTo(c0, c1, c2, e, a', b', c') && At(c0, c1, c2, a', b', c') == w
  {
    assert w.x in c0 && w.y in c1 && w.z in c2;
    var a' :| 0 <= a' < |c0| && c0[a'] == w.x;
    var b' :| 0 <= b' < |c1| && c1[b'] == w.y;
    var c' :| 0 <= c' < |c2| && c2[c'] == w.z;
    assert SumsTo(c0, c1, c2, e, a', b', c') && At(c0, c1, c2, a', b', c') == w;
  }

  /** The search result, read back in exponent terms, is the best split. */
  lemma BestFromSearch(c0: seq<nat>, c1: seq<nat>, c2: seq<nat>, global: seq<nat>, e: nat, ideal: Exps,
                       chosen: Exps, ca: int, cb: int, cc: int)
    requires |global| == 3
    requires forall p, q :: 0 <= p < q < |c0| ==> c0[p] > c0[q]
    requires forall p, q :: 0 <= p < q < |c1| ==> c1[p] > c1[q]
    requires forall p, q :: 0 <= p < q < |c2| ==> c2[p] > c2[q]
    requires forall x: nat :: x in c0 <==> x <= e && global[0] % Pow2(x) == 0
    requires forall x: nat :: x in c1 <==> x <= e && global[1] % Pow2(x) == 0
    requires forall x: nat :: x in c2 <==> x <= e && global[2] % Pow2(x) == 0
    requires SumsTo(c0, c1, c2, e, ca, cb, cc) && chosen == At(c0, c1, c2, ca, cb, cc)
    requires forall a', b', c' :: SumsTo(c0, c1, c2, e, a', b', c') ==>
               Cost(ideal, chosen) <= Cost(ideal, At(c0, c1, c2, a', b', c'))
    requires forall a', b', c' :: SumsTo(c0, c1, c2, e, a', b', c') && Before(a', b', c', ca, cb, cc) ==>
               Cost(ideal, chosen) < Cost(ideal, At(c0, c1, c2, a', b', c'))
    ensures BestSplit(global, e, ideal, chosen)
  {
    assert chosen.x in c0 && chosen.y in c1 && chosen.z in c2;
    forall y | ValidSplit(global, e, y)
      ensures Cost(ideal, chosen) <= Cost(ideal, y)
      ensures Cost(ideal, y) == Cost(ideal, chosen) ==> y == chosen || LexLess(y, chosen)
    {
      assert y.x in c0 && y.y in c1 && y.z in c2;
      var a' :| 0 <= a' < |c0| && c0[a'] == y.x;
      var b' :| 0 <= b' < |c1| && c1[b'] == y.y;
      var c' :| 0 <= c' < |c2| && c2[c'] == y.z;
      assert SumsTo(c0, c1, c2, e, a', b', c') && At(c0, c1, c2, a', b', c') == y;
      if Cost(ideal, y) == Cost(ideal, chosen) && y != chosen {
        assert !Before(a', b', c', ca, cb, cc);
        assert (a', b', c') != (ca, cb, cc);
        if a' > ca {
          assert y.x < chosen.x;
        } else {
          assert b' > cb;
          assert y.x == chosen.x && y.y < chosen.y;
        }
      }
    }
  }

  /** Two best splits are the same split: the choice is determined. */
  lemma BestSplitUnique(global: seq<nat>, e: nat, ideal: Exps, x: Exps, y: Exps)
    requires |global| == 3
    requires BestSplit(global, e, ideal, x) && BestSplit(global, e, ideal, y)
    ensures x == y
  {
  }
}
