/** Helper functions for affine 4x4 matrix construction (a model of the
    static helpers of AffineMatrix over exact reals). A matrix is a sequence
    of four rows of four entries; `m[r][c]` is row r, column c. */
module AffineMatrix {

  type Matrix = seq<seq<real>>

  /** The three rotation axes for which the original builds a rotation. */
  datatype Axis = X | Y | Z

  predicate Is4x4(m: Matrix) {
    |m| == 4 && |m[0]| == 4 && |m[1]| == 4 && |m[2]| == 4 && |m[3]| == 4
  }

  predicate All4x4(ms: seq<Matrix>) {
    forall k :: 0 <= k < |ms| ==> Is4x4(ms[k])
  }

  /** A rotation builder yields a 4x4 matrix for every axis and angle. */
  ghost predicate RotationsAre4x4(rot: (Axis, real) -> Matrix) {
    forall a: Axis, x: real :: Is4x4(rot(a, x))
  }

  lemma RotationIs4x4(rot: (Axis, real) -> Matrix, a: Axis, x: real)
    requires RotationsAre4x4(rot)
    ensures Is4x4(rot(a, x))
  {
  }

  function Identity(): (r: Matrix)
    ensures Is4x4(r)
    ensures forall i, j :: 0 <= i < 4 && 0 <= j < 4 ==> r[i][j] == if i == j then 1.0 else 0.0
  {
    seq(4, i => seq(4, j => if i == j then 1.0 else 0.0))
  }

  /** Entry (i, j) of the product a * b. */
  function Dot(a: Matrix, b: Matrix, i: nat, j: nat): real
    requires Is4x4(a) && Is4x4(b) && i < 4 && j < 4
  {
    a[i][0] * b[0][j] + a[i][1] * b[1][j] + a[i][2] * b[2][j] + a[i][3] * b[3][j]
  }

  /** The matrix product a * b (what `a.mul(b)` stores into a). */
  function Mul(a: Matrix, b: Matrix): (r: Matrix)
    requires Is4x4(a) && Is4x4(b)
    ensures Is4x4(r)
    ensures forall i, j :: 0 <= i < 4 && 0 <= j < 4 ==> r[i][j] == Dot(a, b, i, j)
  {
    seq(4, i requires 0 <= i < 4 => seq(4, j requires 0 <= j < 4 => Dot(a, b, i, j)))
  }

  /** translation(t): the identity with the translation vector in the last column. */
  function Translation(t: seq<real>): (r: Matrix)
    requires |t| == 3
    ensures Is4x4(r)
    ensures forall i :: 0 <= i < 3 ==> r[i][3] == t[i]
    ensures forall i, j :: 0 <= i < 4 && 0 <= j < 4 && !(j == 3 && i < 3) ==>
              r[i][j] == if i == j then 1.0 else 0.0
  {
    var id := Identity();
    [id[0][3 := t[0]], id[1][3 := t[1]], id[2][3 := t[2]], id[3]]
  }

  /** scaling(s): diagonal (s0, s1, s2, 1), zero elsewhere. */
  function Scaling(s: seq<real>): (r: Matrix)
    requires |s| == 3
    ensures Is4x4(r)
    ensures forall i :: 0 <= i < 3 ==> r[i][i] == s[i]
    ensures r[3][3] == 1.0
    ensures forall i, j :: 0 <= i < 4 && 0 <= j < 4 && i != j ==> r[i][j] == 0.0
  {
    var id := Identity();
    [id[0][0 := s[0]], id[1][1 := s[1]], id[2][2 := s[2]], id[3]]
  }

  /** multiply(M1, ..., Mn): starting from the identity R, each matrix M is
      folded in from the right by R := R * M. */
  function Multiply(ms: seq<Matrix>): (r: Matrix)
    requires All4x4(ms)
    ensures Is4x4(r)
  {
    if |ms| == 0 then Identity() else Mul(Multiply(ms[..|ms| - 1]), ms[|ms| - 1])
  }

  /** rotation(ro): Rz * Ry * Rx, built by multiply. The trigonometric
      matrices are given by `rot`, which maps an axis and an angle in degrees
      to the rotation about that axis. */
  function Rotation(ro: seq<real>, rot: (Axis, real) -> Matrix): (r: Matrix)
    requires |ro| >= 3
    requires RotationsAre4x4(rot)
    ensures Is4x4(r)
  {
    var rz, ry, rx := rot(Z, ro[2]), rot(Y, ro[1]), rot(X, ro[0]);
    RotationIs4x4(rot, Z, ro[2]); RotationIs4x4(rot, Y, ro[1]); RotationIs4x4(rot, X, ro[0]);
    Multiply([rz, ry, rx])
  }

  lemma SameEntries(a: Matrix, b: Matrix)
    requires Is4x4(a) && Is4x4(b)
    requires forall i, j :: 0 <= i < 4 && 0 <= j < 4 ==> a[i][j] == b[i][j]
    ensures a == b
  {
    forall i | 0 <= i < 4 ensures a[i] == b[i] {
    }
  }

  lemma MulIdentityLeft(a: Matrix)
    requires Is4x4(a)
    ensures Mul(Identity(), a) == a
  {
    SameEntries(Mul(Identity(), a), a);
  }

  lemma MulIdentityRight(a: Matrix)
    requires Is4x4(a)
    ensures Mul(a, Identity()) == a
  {
    SameEntries(Mul(a, Identity()), a);
  }

  /** Entry (i, j) of (a * b) * c, written out over the entries of a * b. */
  lemma DotMulLeft(a: Matrix, b: Matrix, c: Matrix, i: nat, j: nat)
    requires Is4x4(a) && Is4x4(b) && Is4x4(c) && i < 4 && j < 4
    ensures Dot(Mul(a, b), c, i, j)
            == Dot(a, b, i, 0) * c[0][j] + Dot(a, b, i, 1) * c[1][j] + Dot(a, b, i, 2) * c[2][j] + Dot(a, b, i, 3) * c[3][j]
  {
    var ab := Mul(a, b);
    assert ab[i][0] == Dot(a, b, i, 0) && ab[i][1] == Dot(a, b, i, 1);
    assert ab[i][2] == Dot(a, b, i, 2) && ab[i][3] == Dot(a, b, i, 3);
  }

  lemma DotMulRight(a: Matrix, b: Matrix, c: Matrix, i: nat, j: nat)
    requires Is4x4(a) && Is4x4(b) && Is4x4(c) && i < 4 && j < 4
    ensures Dot(a, Mul(b, c), i, j)
            == a[i][0] * Dot(b, c, 0, j) + a[i][1] * Dot(b, c, 1, j) + a[i][2] * Dot(b, c, 2, j) + a[i][3] * Dot(b, c, 3, j)
  {
    var bc := Mul(b, c);
    assert bc[0][j] == Dot(b, c, 0, j) && bc[1][j] == Dot(b, c, 1, j);
    assert bc[2][j] == Dot(b, c, 2, j) && bc[3][j] == Dot(b, c, 3, j);
  }

  lemma DotAssoc(a: Matrix, b: Matrix, c: Matrix, i: nat, j: nat)
    requires Is4x4(a) && Is4x4(b) && Is4x4(c) && i < 4 && j < 4
    ensures Dot(Mul(a, b), c, i, j) == Dot(a, Mul(b, c), i, j)
  {
    DotMulLeft(a, b, c, i, j);
    DotMulRight(a, b, c, i, j);
  }

  lemma MulAssoc(a: Matrix, b: Matrix, c: Matrix)
    requires Is4x4(a) && Is4x4(b) && Is4x4(c)
    ensures Mul(Mul(a, b), c) == Mul(a, Mul(b, c))
  {
    forall i: nat, j: nat | i < 4 && j < 4
      ensures Mul(Mul(a, b), c)[i][j] == Mul(a, Mul(b, c))[i][j]
    {
      DotAssoc(a, b, c, i, j);
    }
    SameEntries(Mul(Mul(a, b), c), Mul(a, Mul(b, c)));
  }

  /** multiply of no matrices is the identity. */
  lemma MultiplyEmpty()
    ensures Multiply([]) == Identity()
  {
  }

  /** multiply is the left-to-right product: multiply(a ++ b) = multiply(a) * multiply(b). */
  lemma {:induction false} MultiplyAppend(a: seq<Matrix>, b: seq<Matrix>)
    requires All4x4(a) && All4x4(b)
    ensures All4x4(a + b)
    ensures Multiply(a + b) == Mul(Multiply(a), Multiply(b))
  {
    assert All4x4(a + b) by {
      forall k | 0 <= k < |a + b| ensures Is4x4((a + b)[k]) {
        if k < |a| { assert (a + b)[k] == a[k]; } else { assert (a + b)[k] == b[k - |a|]; }
      }
    }
    if |b| == 0 {
      assert a + b == a;
      MulIdentityRight(Multiply(a));
    } else {
      var b' := b[..|b| - 1];
      var last := b[|b| - 1];
      assert All4x4(b');
      assert (a + b)[..|a + b| - 1] == a + b';
      assert (a + b)[|a + b| - 1] == last;
      MultiplyAppend(a, b');
      MulAssoc(Multiply(a), Multiply(b'), last);
    }
  }

  /** multiply of a single matrix is that matrix. */
  lemma MultiplyOne(m: Matrix)
    requires Is4x4(m)
    ensures Multiply([m]) == m
  {
    assert [m][..0] == [];
    MulIdentityLeft(m);
  }

  /** multiply(M1, ..., Mn) is the nested product (..((M1 * M2) * M3) ..) * Mn,
      spelled out for the five-factor call that builds the registration transform. */
  lemma MultiplyFive(m1: Matrix, m2: Matrix, m3: Matrix, m4: Matrix, m5: Matrix)
    requires Is4x4(m1) && Is4x4(m2) && Is4x4(m3) && Is4x4(m4) && Is4x4(m5)
    ensures Multiply([m1, m2, m3, m4, m5]) == Mul(Mul(Mul(Mul(m1, m2), m3), m4), m5)
  {
    assert [m1, m2, m3, m4, m5][..4] == [m1, m2, m3, m4];
    assert [m1, m2, m3, m4][..3] == [m1, m2, m3];
    assert [m1, m2, m3][..2] == [m1, m2];
    assert [m1, m2][..1] == [m1];
    MultiplyOne(m1);
    assert Multiply([m1, m2]) == Mul(m1, m2);
    assert Multiply([m1, m2, m3]) == Mul(Mul(m1, m2), m3);
    assert Multiply([m1, m2, m3, m4]) == Mul(Mul(Mul(m1, m2), m3), m4);
  }

  /** rotation composes the axis rotations as Rz * Ry * Rx. */
  lemma RotationOrder(ro: seq<real>, rot: (Axis, real) -> Matrix)
    requires |ro| >= 3
    requires RotationsAre4x4(rot)
    ensures var rz, ry, rx := rot(Z, ro[2]), rot(Y, ro[1]), rot(X, ro[0]);
      Is4x4(rz) && Is4x4(ry) && Is4x4(rx) && Rotation(ro, rot) == Mul(Mul(rz, ry), rx)
  {
    var rz, ry, rx := rot(Z, ro[2]), rot(Y, ro[1]), rot(X, ro[0]);
    RotationIs4x4(rot, Z, ro[2]); RotationIs4x4(rot, Y, ro[1]); RotationIs4x4(rot, X, ro[0]);
    assert [rz, ry, rx][..2] == [rz, ry];
    assert [rz, ry][..1] == [rz];
    MultiplyOne(rz);
    assert Multiply([rz, ry]) == Mul(rz, ry);
  }

  /** translation(0, 0, 0) is the identity. */
  lemma TranslationZero()
    ensures Translation([0.0, 0.0, 0.0]) == Identity()
  {
    SameEntries(Translation([0.0, 0.0, 0.0]), Identity());
  }

  /** scaling(1, 1, 1) is the identity. */
  lemma ScalingOne()
    ensures Scaling([1.0, 1.0, 1.0]) == Identity()
  {
    SameEntries(Scaling([1.0, 1.0, 1.0]), Identity());
  }

  /** Translations compose by adding their vectors. */
  lemma TranslationCompose(s: seq<real>, t: seq<real>)
    requires |s| == 3 && |t| == 3
    ensures Mul(Translation(s), Translation(t)) == Translation([s[0] + t[0], s[1] + t[1], s[2] + t[2]])
  {
    SameEntries(Mul(Translation(s), Translation(t)), Translation([s[0] + t[0], s[1] + t[1], s[2] + t[2]]));
  }

  /** Scalings compose by multiplying their factors. */
  lemma ScalingCompose(s: seq<real>, t: seq<real>)
    requires |s| == 3 && |t| == 3
    ensures Mul(Scaling(s), Scaling(t)) == Scaling([s[0] * t[0], s[1] * t[1], s[2] * t[2]])
  {
    SameEntries(Mul(Scaling(s), Scaling(t)), Scaling([s[0] * t[0], s[1] * t[1], s[2] * t[2]]));
  }
}
