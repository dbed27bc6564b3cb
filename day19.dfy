/** Day 19: Beacon Scanner.  Scanners see beacons in their own rotated,
    translated frame; 4x4 affine integer matrices bring every scanner into
    the frame of scanner 0. */
module Day19 {
  import opened Common

  /** A beacon or scanner position (`Vector<3>`). */
  datatype Point = Point(x: int, y: int, z: int)

  function Add(p: Point, q: Point): Point {
    Point(p.x + q.x, p.y + q.y, p.z + q.z)
  }

  function Sub(p: Point, q: Point): Point {
    Point(p.x - q.x, p.y - q.y, p.z - q.z)
  }

  function Neg(p: Point): Point {
    Point(0 - p.x, 0 - p.y, 0 - p.z)
  }

  // ---------------------------------------------------------------------
  // Matrices
  // ---------------------------------------------------------------------

  /** A row-major integer matrix (`Matrix<N, M>`). */
  type Matrix = seq<seq<int>>

  /** `a` has `n` rows of `m` entries each. */
  predicate IsMatrix(a: Matrix, n: nat, m: nat) {
    |a| == n && forall i :: 0 <= i < n ==> |a[i]| == m
  }

  /** The sum over `k < len` of `a[i][k] * b[k][j]`. */
  function Dot(a: Matrix, b: Matrix, i: nat, j: nat, len: nat): int
    requires i < |a| && len <= |a[i]| && len <= |b|
    requires forall k :: 0 <= k < len ==> j < |b[k]|
  {
    if len == 0 then 0 else Dot(a, b, i, j, len - 1) + a[i][len - 1] * b[len - 1][j]
  }

  /** `multiply_matrix`: the `n` by `o` product of an `n` by `m` and an
      `m` by `o` matrix. */
  function Multiply(a: Matrix, b: Matrix, n: nat, m: nat, o: nat): (r: Matrix)
    requires IsMatrix(a, n, m) && IsMatrix(b, m, o)
    ensures IsMatrix(r, n, o)
    ensures forall i, j :: 0 <= i < n && 0 <= j < o ==> r[i][j] == Dot(a, b, i, j, m)
  {
    seq(n, i requires 0 <= i < n => seq(o, j requires 0 <= j < o => Dot(a, b, i, j, m)))
  }

  /** `transpose`: rows become columns. */
  function Transpose(a: Matrix, n: nat): (r: Matrix)
    requires IsMatrix(a, n, n)
    ensures IsMatrix(r, n, n)
    ensures forall i, j :: 0 <= i < n && 0 <= j < n ==> r[i][j] == a[j][i]
  {
    seq(n, i requires 0 <= i < n => seq(n, j requires 0 <= j < n => a[j][i]))
  }

  lemma TransposeTwice(a: Matrix, n: nat)
    requires IsMatrix(a, n, n)
    ensures Transpose(Transpose(a, n), n) == a
  {
    var t := Transpose(Transpose(a, n), n);
    forall i | 0 <= i < n ensures t[i] == a[i] {
      assert forall j :: 0 <= j < n ==> t[i][j] == a[i][j];
    }
  }

  /** The doc-test of `transpose`. */
  lemma TransposeExample()
    ensures Transpose([[0, 1], [-1, 0]], 2) == [[0, -1], [1, 0]]
  {
    var t := Transpose([[0, 1], [-1, 0]], 2);
    assert t[0] == [0, -1];
    assert t[1] == [1, 0];
  }

  // ----- associativity -------------------------------------------------

  /** The sum over `k < m` of `a[i][k] * (b c)[k][j]`, with the inner
      product taken over its first `p` terms. */
  function Nested(a: Matrix, b: Matrix, c: Matrix, i: nat, j: nat, m: nat, p: nat): int
    requires i < |a| && m <= |a[i]| && m <= |b| && p <= |c|
    requires forall k :: 0 <= k < m ==> p <= |b[k]|
    requires forall l :: 0 <= l < p ==> j < |c[l]|
  {
    if m == 0 then 0 else Nested(a, b, c, i, j, m - 1, p) + a[i][m - 1] * Dot(b, c, m - 1, j, p)
  }

  lemma {:induction false} NestedZero(a: Matrix, b: Matrix, c: Matrix, i: nat, j: nat, m: nat)
    requires i < |a| && m <= |a[i]| && m <= |b|
    ensures Nested(a, b, c, i, j, m, 0) == 0
  {
    if m > 0 {
      NestedZero(a, b, c, i, j, m - 1);
    }
  }

  lemma {:induction false} NestedStep(a: Matrix, b: Matrix, c: Matrix, i: nat, j: nat, m: nat, p: nat)
    requires i < |a| && m <= |a[i]| && m <= |b| && p < |c|
    requires forall k :: 0 <= k < m ==> p < |b[k]|
    requires forall l :: 0 <= l <= p ==> j < |c[l]|
    ensures Nested(a, b, c, i, j, m, p + 1)
         == Nested(a, b, c, i, j, m, p) + Dot(a, b, i, p, m) * c[p][j]
  {
    if m > 0 {
      NestedStep(a, b, c, i, j, m - 1, p);
      var x := a[i][m - 1];
      var d := Dot(b, c, m - 1, j, p);
      var y := b[m - 1][p];
      var z := c[p][j];
      assert x * (d + y * z) == x * d + (x * y) * z;
      assert (Dot(a, b, i, p, m - 1) + x * y) * z == Dot(a, b, i, p, m - 1) * z + (x * y) * z;
    }
  }

  lemma {:induction false} DotAssoc(a: Matrix, b: Matrix, c: Matrix, n: nat, m: nat, o: nat, q: nat,
                                    i: nat, j: nat, p: nat)
    requires IsMatrix(a, n, m) && IsMatrix(b, m, o) && IsMatrix(c, o, q)
    requires i < n && j < q && p <= o
    ensures Dot(Multiply(a, b, n, m, o), c, i, j, p) == Nested(a, b, c, i, j, m, p)
  {
    if p == 0 {
      NestedZero(a, b, c, i, j, m);
    } else {
      DotAssoc(a, b, c, n, m, o, q, i, j, p - 1);
      NestedStep(a, b, c, i, j, m, p - 1);
    }
  }

  lemma {:induction false} NestedFull(a: Matrix, b: Matrix, c: Matrix, n: nat, m: nat, o: nat, q: nat,
                                      i: nat, j: nat, k: nat)
    requires IsMatrix(a, n, m) && IsMatrix(b, m, o) && IsMatrix(c, o, q)
    requires i < n && j < q && k <= m
    ensures Nested(a, b, c, i, j, k, o) == Dot(a, Multiply(b, c, m, o, q), i, j, k)
  {
    if k > 0 {
      NestedFull(a, b, c, n, m, o, q, i, j, k - 1);
    }
  }

  /** Matrix product is associative. */
  lemma MultiplyAssoc(a: Matrix, b: Matrix, c: Matrix, n: nat, m: nat, o: nat, q: nat)
    requires IsMatrix(a, n, m) && IsMatrix(b, m, o) && IsMatrix(c, o, q)
    ensures Multiply(Multiply(a, b, n, m, o), c, n, o, q)
         == Multiply(a, Multiply(b, c, m, o, q), n, m, q)
  {
    var l := Multiply(Multiply(a, b, n, m, o), c, n, o, q);
    var r := Multiply(a, Multiply(b, c, m, o, q), n, m, q);
    forall i | 0 <= i < n ensures l[i] == r[i] {
      forall j | 0 <= j < q ensures l[i][j] == r[i][j] {
        DotAssoc(a, b, c, n, m, o, q, i, j, o);
        NestedFull(a, b, c, n, m, o, q, i, j, m);
      }
    }
  }

  // ----- transpose of a product ----------------------------------------

  lemma {:induction false} DotTranspose(a: Matrix, b: Matrix, n: nat, i: nat, j: nat, k: nat)
    requires IsMatrix(a, n, n) && IsMatrix(b, n, n) && i < n && j < n && k <= n
    ensures Dot(Transpose(b, n), Transpose(a, n), i, j, k) == Dot(a, b, j, i, k)
  {
    if k > 0 {
      DotTranspose(a, b, n, i, j, k - 1);
    }
  }

  /** `transpose(a b) == transpose(b) transpose(a)`. */
  lemma TransposeMultiply(a: Matrix, b: Matrix, n: nat)
    requires IsMatrix(a, n, n) && IsMatrix(b, n, n)
    ensures Transpose(Multiply(a, b, n, n, n), n)
         == Multiply(Transpose(b, n), Transpose(a, n), n, n, n)
  {
    var l := Transpose(Multiply(a, b, n, n, n), n);
    var r := Multiply(Transpose(b, n), Transpose(a, n), n, n, n);
    forall i | 0 <= i < n ensures l[i] == r[i] {
      forall j | 0 <= j < n ensures l[i][j] == r[i][j] {
        DotTranspose(a, b, n, i, j, n);
      }
    }
  }

  // ----- identity ------------------------------------------------------

  /** The `n` by `n` identity matrix. */
  function Identity(n: nat): (r: Matrix)
    ensures IsMatrix(r, n, n)
    ensures forall i, j :: 0 <= i < n && 0 <= j < n ==> r[i][j] == if i == j then 1 else 0
  {
    seq(n, i requires 0 <= i < n => seq(n, j requires 0 <= j < n => if i == j then 1 else 0))
  }

  lemma {:induction false} DotIdentityLeft(a: Matrix, n: nat, o: nat, i: nat, j: nat, k: nat)
    requires IsMatrix(a, n, o) && i < n && j < o && k <= n
    ensures Dot(Identity(n), a, i, j, k) == if i < k then a[i][j] else 0
  {
    if k > 0 {
      DotIdentityLeft(a, n, o, i, j, k - 1);
    }
  }

  lemma {:induction false} DotIdentityRight(a: Matrix, n: nat, m: nat, i: nat, j: nat, k: nat)
    requires IsMatrix(a, n, m) && i < n && j < m && k <= m
    ensures Dot(a, Identity(m), i, j, k) == if j < k then a[i][j] else 0
  {
    if k > 0 {
      DotIdentityRight(a, n, m, i, j, k - 1);
    }
  }

  /** The identity is neutral on both sides of a product. */
  lemma MultiplyIdentity(a: Matrix, n: nat, m: nat)
    requires IsMatrix(a, n, m)
    ensures Multiply(Identity(n), a, n, n, m) == a
    ensures Multiply(a, Identity(m), n, m, m) == a
  {
    var l := Multiply(Identity(n), a, n, n, m);
    var r := Multiply(a, Identity(m), n, m, m);
    forall i | 0 <= i < n ensures l[i] == a[i] && r[i] == a[i] {
      forall j | 0 <= j < m ensures l[i][j] == a[i][j] && r[i][j] == a[i][j] {
        DotIdentityLeft(a, n, m, i, j, n);
        DotIdentityRight(a, n, m, i, j, m);
      }
    }
  }

  // ---------------------------------------------------------------------
  // The constant matrices and the 24 rotations
  // ---------------------------------------------------------------------

  const ID4: Matrix := [[1, 0, 0, 0], [0, 1, 0, 0], [0, 0, 1, 0], [0, 0, 0, 1]]
  const X90: Matrix := [[1, 0, 0, 0], [0, 0, -1, 0], [0, 1, 0, 0], [0, 0, 0, 1]]
  const Y90: Matrix := [[0, 0, 1, 0], [0, 1, 0, 0], [-1, 0, 0, 0], [0, 0, 0, 1]]
  const Z90: Matrix := [[0, -1, 0, 0], [1, 0, 0, 0], [0, 0, 1, 0], [0, 0, 0, 1]]

  lemma ID4IsIdentity()
    ensures ID4 == Identity(4)
  {
    var e := Identity(4);
    assert e[0] == ID4[0] && e[1] == ID4[1] && e[2] == ID4[2] && e[3] == ID4[3];
  }

  /** A 4-term dot product written out. */
  lemma Dot4(a: Matrix, b: Matrix, i: nat, j: nat)
    requires i < |a| && |a[i]| == 4 && |b| == 4 && forall k :: 0 <= k < 4 ==> j < |b[k]|
    ensures Dot(a, b, i, j, 4)
         == a[i][0] * b[0][j] + a[i][1] * b[1][j] + a[i][2] * b[2][j] + a[i][3] * b[3][j]
  {
    assert Dot(a, b, i, j, 1) == a[i][0] * b[0][j];
    assert Dot(a, b, i, j, 2) == Dot(a, b, i, j, 1) + a[i][1] * b[1][j];
    assert Dot(a, b, i, j, 3) == Dot(a, b, i, j, 2) + a[i][2] * b[2][j];
  }

  /** An affine map of homogeneous coordinates: last row `[0, 0, 0, 1]`. */
  predicate Affine(t: Matrix) {
    IsMatrix(t, 4, 4) && t[3] == [0, 0, 0, 1]
  }

  /** An affine map without translation: last row and last column are
      both `[0, 0, 0, 1]`. */
  predicate Linear(t: Matrix) {
    Affine(t) && t[0][3] == 0 && t[1][3] == 0 && t[2][3] == 0
  }

  lemma AffineProduct(a: Matrix, b: Matrix)
    requires Affine(a) && Affine(b)
    ensures Affine(Multiply(a, b, 4, 4, 4))
    ensures Linear(a) && Linear(b) ==> Linear(Multiply(a, b, 4, 4, 4))
  {
    var r := Multiply(a, b, 4, 4, 4);
    forall j | 0 <= j < 4 ensures r[3][j] == b[3][j] {
      Dot4(a, b, 3, j);
    }
    assert r[3] == b[3];
    if Linear(a) && Linear(b) {
      forall i | 0 <= i < 3 ensures r[i][3] == 0 {
        Dot4(a, b, i, 3);
      }
    }
  }

  /** `transpose(t)` undoes `t` from both sides. */
  predicate Orthogonal(t: Matrix) {
    IsMatrix(t, 4, 4)
    && Multiply(Transpose(t, 4), t, 4, 4, 4) == ID4
    && Multiply(t, Transpose(t, 4), 4, 4, 4) == ID4
  }

  lemma OrthogonalProduct(a: Matrix, b: Matrix)
    requires Orthogonal(a) && Orthogonal(b)
    ensures Orthogonal(Multiply(a, b, 4, 4, 4))
  {
    var ab := Multiply(a, b, 4, 4, 4);
    var at := Transpose(a, 4);
    var bt := Transpose(b, 4);
    ID4IsIdentity();
    TransposeMultiply(a, b, 4);
    assert Transpose(ab, 4) == Multiply(bt, at, 4, 4, 4);
    // transpose(ab) ab == bt (at (a b)) == bt ((at a) b) == bt b
    MultiplyAssoc(bt, at, ab, 4, 4, 4, 4);
    MultiplyAssoc(at, a, b, 4, 4, 4, 4);
    MultiplyIdentity(b, 4, 4);
    assert Multiply(at, ab, 4, 4, 4) == b;
    // ab transpose(ab) == a (b (bt at)) == a ((b bt) at) == a at
    MultiplyAssoc(a, b, Multiply(bt, at, 4, 4, 4), 4, 4, 4, 4);
    MultiplyAssoc(b, bt, at, 4, 4, 4, 4);
    MultiplyIdentity(at, 4, 4);
    assert Multiply(b, Multiply(bt, at, 4, 4, 4), 4, 4, 4) == at;
  }

  lemma IdentityRotation()
    ensures Linear(ID4) && Orthogonal(ID4)
  {
    Orthogonal4(ID4);
  }

  lemma X90Rotation()
    ensures Linear(X90) && Orthogonal(X90)
  {
    Orthogonal4(X90);
  }

  lemma Y90Rotation()
    ensures Linear(Y90) && Orthogonal(Y90)
  {
    Orthogonal4(Y90);
  }

  lemma Z90Rotation()
    ensures Linear(Z90) && Orthogonal(Z90)
  {
    Orthogonal4(Z90);
  }

  /** Orthogonality of a concrete 4x4 matrix, entry by entry. */
  lemma Orthogonal4(t: Matrix)
    requires IsMatrix(t, 4, 4)
    requires forall i, j :: 0 <= i < 4 && 0 <= j < 4 ==>
      t[0][i] * t[0][j] + t[1][i] * t[1][j] + t[2][i] * t[2][j] + t[3][i] * t[3][j]
        == (if i == j then 1 else 0)
    requires forall i, j :: 0 <= i < 4 && 0 <= j < 4 ==>
      t[i][0] * t[j][0] + t[i][1] * t[j][1] + t[i][2] * t[j][2] + t[i][3] * t[j][3]
        == (if i == j then 1 else 0)
    ensures Orthogonal(t)
  {
    var tt := Transpose(t, 4);
    var l := Multiply(tt, t, 4, 4, 4);
    var r := Multiply(t, tt, 4, 4, 4);
    ID4IsIdentity();
    forall i | 0 <= i < 4 ensures l[i] == ID4[i] && r[i] == ID4[i] {
      forall j | 0 <= j < 4 ensures l[i][j] == ID4[i][j] && r[i][j] == ID4[i][j] {
        Dot4(tt, t, i, j);
        Dot4(t, tt, i, j);
      }
    }
  }

  /** A proper rotation of homogeneous coordinates: linear, and undone by
      its transpose. */
  predicate Rotation(t: Matrix) {
    Linear(t) && Orthogonal(t)
  }

  lemma RotationProduct(a: Matrix, b: Matrix)
    requires Rotation(a) && Rotation(b)
    ensures Rotation(Multiply(a, b, 4, 4, 4))
  {
    AffineProduct(a, b);
    OrthogonalProduct(a, b);
  }

  /** The four rotations about the x axis (`x_rotations`). */
  function XRotations(): (r: seq<Matrix>)
    ensures |r| == 4 && forall k :: 0 <= k < 4 ==> IsMatrix(r[k], 4, 4)
  {
    var x180 := Multiply(X90, X90, 4, 4, 4);
    var x270 := Multiply(X90, x180, 4, 4, 4);
    [ID4, X90, x180, x270]
  }

  /** The six directions the x axis can be turned to (`main_axis`). */
  function MainAxes(): (r: seq<Matrix>)
    ensures |r| == 6 && forall k :: 0 <= k < 6 ==> IsMatrix(r[k], 4, 4)
  {
    var y180 := Multiply(Y90, Y90, 4, 4, 4);
    var y270 := Multiply(Y90, y180, 4, 4, 4);
    var z180 := Multiply(Z90, Z90, 4, 4, 4);
    var z270 := Multiply(Z90, z180, 4, 4, 4);
    [ID4, Y90, y180, y270, Z90, z270]
  }

  /** The powers of a rotation are rotations. */
  lemma PowersRotate(m: Matrix)
    requires Rotation(m)
    ensures Rotation(Multiply(m, m, 4, 4, 4))
    ensures Rotation(Multiply(m, Multiply(m, m, 4, 4, 4), 4, 4, 4))
  {
    RotationProduct(m, m);
    RotationProduct(m, Multiply(m, m, 4, 4, 4));
  }

  lemma XRotationRotates(k: nat)
    requires k < 4
    ensures Rotation(XRotations()[k])
  {
    if k == 0 {
      IdentityRotation();
    } else {
      X90Rotation();
      if k > 1 {
        PowersRotate(X90);
      }
    }
  }

  lemma MainAxisRotates(k: nat)
    requires k < 6
    ensures Rotation(MainAxes()[k])
  {
    if k == 0 {
      IdentityRotation();
    } else if k < 4 {
      Y90Rotation();
      if k > 1 {
        PowersRotate(Y90);
      }
    } else {
      Z90Rotation();
      if k == 5 {
        PowersRotate(Z90);
      }
    }
  }

  /** The `k`th generated matrix: main axis `k % 6` after x rotation `k / 6`. */
  function RotationAt(k: nat): (r: Matrix)
    requires k < 24
    ensures Linear(r)
  {
    RotationAtRotates(k);
    Multiply(MainAxes()[k % 6], XRotations()[k / 6], 4, 4, 4)
  }

  lemma RotationAtRotates(k: nat)
    requires k < 24
    ensures Rotation(Multiply(MainAxes()[k % 6], XRotations()[k / 6], 4, 4, 4))
  {
    MainAxisRotates(k % 6);
    XRotationRotates(k / 6);
    RotationProduct(MainAxes()[k % 6], XRotations()[k / 6]);
  }

  /** `rotation_matrices`: for each x rotation in turn, every main axis
      times it; 24 matrices in all, each without a translation part. */
  function Rotations(): (r: seq<Matrix>)
    ensures |r| == 24
    ensures forall k :: 0 <= k < 24 ==> r[k] == RotationAt(k)
  {
    seq(24, k requires 0 <= k < 24 => RotationAt(k))
  }

  /** Every generated matrix is a rotation: its transpose undoes it. */
  lemma RotationsAreRotations()
    ensures forall k :: 0 <= k < 24 ==> Rotation(Rotations()[k])
  {
    forall k | 0 <= k < 24 ensures Rotation(Rotations()[k]) {
      RotationAtRotates(k);
    }
  }

  // ---------------------------------------------------------------------
  // Transforming points
  // ---------------------------------------------------------------------

  /** A point in homogeneous coordinates, as a 4x1 column. */
  function Column(p: Point): (r: Matrix)
    ensures IsMatrix(r, 4, 1)
  {
    [[p.x], [p.y], [p.z], [1]]
  }

  /** `apply_transform`: the first three entries of `t` times the column
      of `p`. */
  function Apply(p: Point, t: Matrix): Point
    requires IsMatrix(t, 4, 4)
  {
    var c := Multiply(t, Column(p), 4, 4, 1);
    Point(c[0][0], c[1][0], c[2][0])
  }

  lemma ApplyFormula(p: Point, t: Matrix)
    requires IsMatrix(t, 4, 4)
    ensures Apply(p, t) == Point(t[0][0] * p.x + t[0][1] * p.y + t[0][2] * p.z + t[0][3],
                                 t[1][0] * p.x + t[1][1] * p.y + t[1][2] * p.z + t[1][3],
                                 t[2][0] * p.x + t[2][1] * p.y + t[2][2] * p.z + t[2][3])
  {
    Dot4(t, Column(p), 0, 0);
    Dot4(t, Column(p), 1, 0);
    Dot4(t, Column(p), 2, 0);
  }

  /** `vector_as_translation`. */
  function Translation(v: Point): (r: Matrix)
    ensures Affine(r)
  {
    [[1, 0, 0, v.x], [0, 1, 0, v.y], [0, 0, 1, v.z], [0, 0, 0, 1]]
  }

  /** A translation matrix adds its vector. */
  lemma ApplyTranslation(p: Point, v: Point)
    ensures Apply(p, Translation(v)) == Add(p, v)
  {
    ApplyFormula(p, Translation(v));
  }

  lemma ApplyIdentity(p: Point)
    ensures Apply(p, ID4) == p
  {
    ApplyFormula(p, ID4);
  }

  /** The image of the origin is the translation column. */
  lemma ApplyOrigin(t: Matrix)
    requires IsMatrix(t, 4, 4)
    ensures Apply(Point(0, 0, 0), t) == Point(t[0][3], t[1][3], t[2][3])
  {
    ApplyFormula(Point(0, 0, 0), t);
  }

  /** Under an affine matrix the homogeneous coordinate stays 1. */
  lemma ColumnOfApply(p: Point, t: Matrix)
    requires Affine(t)
    ensures Column(Apply(p, t)) == Multiply(t, Column(p), 4, 4, 1)
  {
    var c := Multiply(t, Column(p), 4, 4, 1);
    Dot4(t, Column(p), 3, 0);
    assert c[3][0] == 1;
    assert c[0] == [c[0][0]] && c[1] == [c[1][0]] && c[2] == [c[2][0]] && c[3] == [1];
    assert c == [[c[0][0]], [c[1][0]], [c[2][0]], [1]];
  }

  /** A product of matrices applies the right factor first: this is what
      makes `offset x transform` map a scanner into the frame of scanner 0. */
  lemma ApplyCompose(p: Point, o: Matrix, t: Matrix)
    requires IsMatrix(o, 4, 4) && Affine(t)
    ensures Apply(p, Multiply(o, t, 4, 4, 4)) == Apply(Apply(p, t), o)
  {
    MultiplyAssoc(o, t, Column(p), 4, 4, 4, 1);
    ColumnOfApply(p, t);
  }

  lemma TransposeLinear(t: Matrix)
    requires Linear(t)
    ensures Linear(Transpose(t, 4))
  {
    var r := Transpose(t, 4);
    assert r[3] == [t[0][3], t[1][3], t[2][3], t[3][3]];
  }

  /** A rotation and its transpose undo each other. */
  lemma ApplyRotationInverse(p: Point, t: Matrix)
    requires Rotation(t)
    ensures Apply(Apply(p, t), Transpose(t, 4)) == p
    ensures Apply(Apply(p, Transpose(t, 4)), t) == p
  {
    TransposeLinear(t);
    ApplyCompose(p, Transpose(t, 4), t);
    ApplyCompose(p, t, Transpose(t, 4));
    ApplyIdentity(p);
  }

  // ---------------------------------------------------------------------
  // Candidate transformations of `find_overlap`
  // ---------------------------------------------------------------------

  /** The offset that moves the rotated anchor `pa` onto `pb`. */
  function Offset(rotation: Matrix, pa: Point, pb: Point): Point
    requires IsMatrix(rotation, 4, 4)
  {
    Sub(pb, Apply(pa, rotation))
  }

  /** `translation x rotation` for the anchor pair (`pa`, `pb`). */
  function Candidate(rotation: Matrix, pa: Point, pb: Point): (r: Matrix)
    requires Linear(rotation)
    ensures Affine(r)
  {
    AffineProduct(Translation(Offset(rotation, pa, pb)), rotation);
    Multiply(Translation(Offset(rotation, pa, pb)), rotation, 4, 4, 4)
  }

  /** `transpose(rotation) x translation(-offset)`. */
  function InverseCandidate(rotation: Matrix, pa: Point, pb: Point): (r: Matrix)
    requires Linear(rotation)
    ensures Affine(r)
  {
    TransposeLinear(rotation);
    AffineProduct(Transpose(rotation, 4), Translation(Neg(Offset(rotation, pa, pb))));
    Multiply(Transpose(rotation, 4), Translation(Neg(Offset(rotation, pa, pb))), 4, 4, 4)
  }

  /** Both asserts of `find_overlap`: the translation moves the rotated
      anchor onto `pb`, and so does the whole candidate. */
  lemma CandidateMapsAnchor(rotation: Matrix, pa: Point, pb: Point)
    requires Linear(rotation)
    ensures Apply(Apply(pa, rotation), Translation(Offset(rotation, pa, pb))) == pb
    ensures Apply(pa, Candidate(rotation, pa, pb)) == pb
  {
    var off := Offset(rotation, pa, pb);
    ApplyTranslation(Apply(pa, rotation), off);
    ApplyCompose(pa, Translation(off), rotation);
  }

  /** For a rotation, the inverse candidate is the inverse map: `q` is the
      image of `p` exactly when `p` is the image of `q` going back. */
  lemma CandidateInverse(rotation: Matrix, pa: Point, pb: Point, p: Point, q: Point)
    requires Rotation(rotation)
    ensures Apply(p, Candidate(rotation, pa, pb)) == q
        <==> Apply(q, InverseCandidate(rotation, pa, pb)) == p
  {
    var off := Offset(rotation, pa, pb);
    var rt := Transpose(rotation, 4);
    TransposeLinear(rotation);
    ApplyCompose(p, Translation(off), rotation);
    ApplyTranslation(Apply(p, rotation), off);
    ApplyCompose(q, rt, Translation(Neg(off)));
    ApplyTranslation(q, Neg(off));
    var back := Add(q, Neg(off));
    ApplyRotationInverse(p, rotation);
    ApplyRotationInverse(back, rotation);
    if Apply(p, Candidate(rotation, pa, pb)) == q {
      assert back == Apply(p, rotation);
    }
    if Apply(q, InverseCandidate(rotation, pa, pb)) == p {
      assert Apply(p, rotation) == back;
    }
  }

  // ---------------------------------------------------------------------
  // find_overlap
  // ---------------------------------------------------------------------

  /** A scanner: its index, its transform into the frame of scanner 0
      once known, and the beacons it sees. */
  datatype Scanner = Scanner(number: nat, transform: Option<Matrix>, elements: set<Point>)

  /** Every coordinate lies in `-1000..=1000`, the range a scanner sees. */
  predicate InCube(p: Point) {
    -1000 <= p.x <= 1000 && -1000 <= p.y <= 1000 && -1000 <= p.z <= 1000
  }

  /** The beacons of `a` that `t` maps into the cube. */
  function MappedInCube(a: set<Point>, t: Matrix): set<Point>
    requires IsMatrix(t, 4, 4)
  {
    set p | p in a && InCube(Apply(p, t))
  }

  /** Every beacon of `a` that `t` maps into the cube lands on a beacon
      of `b`. */
  predicate ForwardHolds(a: set<Point>, b: set<Point>, t: Matrix)
    requires IsMatrix(t, 4, 4)
  {
    forall p :: p in a && InCube(Apply(p, t)) ==> Apply(p, t) in b
  }

  /** Every beacon of `b` that `inverse` sends into the cube lands on a
      beacon of `a`. */
  predicate BackwardHolds(a: set<Point>, b: set<Point>, inverse: Matrix)
    requires IsMatrix(inverse, 4, 4)
  {
    forall q :: q in b && InCube(Apply(q, inverse)) ==> Apply(q, inverse) in a
  }

  /** The anchor pair (`pa`, `pb`) under `rotation` passes every check of
      `find_overlap`. */
  predicate Accepts(a: set<Point>, b: set<Point>, rotation: Matrix, pa: Point, pb: Point)
    requires Linear(rotation)
  {
    var t := Candidate(rotation, pa, pb);
    ForwardHolds(a, b, t)
    && |MappedInCube(a, t)| >= 12
    && BackwardHolds(a, b, InverseCandidate(rotation, pa, pb))
  }

  /** `t` is the candidate of an accepted rotation and anchor pair. */
  predicate Overlaps(a: set<Point>, b: set<Point>, t: Matrix) {
    exists k, pa, pb :: 0 <= k < 24 && pa in a && pb in b
      && Accepts(a, b, RotationAt(k), pa, pb) && t == Candidate(RotationAt(k), pa, pb)
  }

  /** No anchor pair is accepted under `rotation`. */
  predicate NoAnchorAccepted(a: set<Point>, b: set<Point>, rotation: Matrix)
    requires Linear(rotation)
  {
    forall pa, pb :: pa in a && pb in b ==> !Accepts(a, b, rotation, pa, pb)
  }

  /** No rotation and anchor pair is accepted from `a` to `b`. */
  predicate NoOverlap(a: set<Point>, b: set<Point>) {
    forall k :: 0 <= k < 24 ==> NoAnchorAccepted(a, b, RotationAt(k))
  }

  /** The counting loop of `find_overlap`: fails as soon as a beacon
      mapped into the cube is not a beacon of `b`, else counts the
      beacons mapped into the cube. */
  method CountForward(a: set<Point>, b: set<Point>, t: Matrix) returns (ok: bool, count: nat)
    requires IsMatrix(t, 4, 4)
    ensures ok <==> ForwardHolds(a, b, t)
    ensures ok ==> count == |MappedInCube(a, t)|
  {
    var rest := a;
    count := 0;
    while rest != {}
      invariant rest <= a
      invariant ForwardHolds(a - rest, b, t)
      invariant count == |MappedInCube(a - rest, t)|
      decreases |rest|
    {
      var p :| p in rest;
      var mapped := Apply(p, t);
      var seen := a - rest;
      assert a - (rest - {p}) == seen + {p};
      if !InCube(mapped) {
        assert MappedInCube(seen + {p}, t) == MappedInCube(seen, t);
      } else if mapped in b {
        assert MappedInCube(seen + {p}, t) == MappedInCube(seen, t) + {p};
        count := count + 1;
      } else {
        return false, count;
      }
      rest := rest - {p};
    }
    assert a - rest == a;
    ok := true;
  }

  /** The inverse check of `find_overlap`. */
  method CheckBackward(a: set<Point>, b: set<Point>, inverse: Matrix) returns (ok: bool)
    requires IsMatrix(inverse, 4, 4)
    ensures ok <==> BackwardHolds(a, b, inverse)
  {
    var rest := b;
    while rest != {}
      invariant rest <= b
      invariant BackwardHolds(a, b - rest, inverse)
      decreases |rest|
    {
      var q :| q in rest;
      var mapped := Apply(q, inverse);
      if InCube(mapped) && mapped !in a {
        return false;
      }
      assert b - (rest - {q}) == (b - rest) + {q};
      rest := rest - {q};
    }
    assert b - rest == b;
    return true;
  }

  /** The body of the innermost loop of `find_overlap`: builds the
      candidate for one rotation and anchor pair and runs both checks. */
  method TryAnchor(a: set<Point>, b: set<Point>, rotation: Matrix, pa: Point, pb: Point)
    returns (r: Option<Matrix>)
    requires Linear(rotation)
    ensures r.Some? <==> Accepts(a, b, rotation, pa, pb)
    ensures r.Some? ==> r.value == Candidate(rotation, pa, pb)
  {
    var rotated := Apply(pa, rotation);
    var offset := Sub(pb, rotated);
    var translation := Translation(offset);
    var transformation := Multiply(translation, rotation, 4, 4, 4);
    CandidateMapsAnchor(rotation, pa, pb);
    assert Apply(rotated, translation) == pb;
    assert Apply(pa, transformation) == pb;
    var forwardOk, count := CountForward(a, b, transformation);
    if forwardOk && count >= 12 {
      var inverse := Multiply(Transpose(rotation, 4), Translation(Neg(offset)), 4, 4, 4);
      var backwardOk := CheckBackward(a, b, inverse);
      if backwardOk {
        return Some(transformation);
      }
    }
    return None;
  }

  /** The innermost loop of `find_overlap`: every anchor of `b` for one
      anchor `pa` of `a`. */
  method SearchPartners(a: set<Point>, b: set<Point>, rotation: Matrix, pa: Point) returns (r: Option<Matrix>)
    requires Linear(rotation)
    ensures r.Some? ==> exists pb :: pb in b
                          && Accepts(a, b, rotation, pa, pb) && r.value == Candidate(rotation, pa, pb)
    ensures r.None? ==> forall pb :: pb in b ==> !Accepts(a, b, rotation, pa, pb)
  {
    var rest := b;
    while rest != {}
      invariant rest <= b
      invariant forall pb :: pb in b - rest ==> !Accepts(a, b, rotation, pa, pb)
      decreases |rest|
    {
      var pb :| pb in rest;
      r := TryAnchor(a, b, rotation, pa, pb);
      if r.Some? {
        return;
      }
      assert b - (rest - {pb}) == (b - rest) + {pb};
      rest := rest - {pb};
    }
    return None;
  }

  /** The anchor loops of `find_overlap` for one rotation. */
  method SearchAnchors(a: set<Point>, b: set<Point>, rotation: Matrix) returns (r: Option<Matrix>)
    requires Linear(rotation)
    ensures r.Some? ==> exists pa, pb :: pa in a && pb in b
                          && Accepts(a, b, rotation, pa, pb) && r.value == Candidate(rotation, pa, pb)
    ensures r.None? ==> NoAnchorAccepted(a, b, rotation)
  {
    var rest := a;
    while rest != {}
      invariant rest <= a
      invariant forall pa, pb :: pa in a - rest && pb in b ==> !Accepts(a, b, rotation, pa, pb)
      decreases |rest|
    {
      var pa :| pa in rest;
      r := SearchPartners(a, b, rotation, pa);
      if r.Some? {
        return;
      }
      assert a - (rest - {pa}) == (a - rest) + {pa};
      rest := rest - {pa};
    }
    return None;
  }

  /** The rotation loop of `find_overlap`, over any list of rotations. */
  method SearchRotations(a: set<Point>, b: set<Point>, rotations: seq<Matrix>) returns (r: Option<Matrix>)
    requires forall k :: 0 <= k < |rotations| ==> Linear(rotations[k])
    ensures r.Some? ==> exists k, pa, pb :: 0 <= k < |rotations| && pa in a && pb in b
                          && Accepts(a, b, rotations[k], pa, pb) && r.value == Candidate(rotations[k], pa, pb)
    ensures r.None? ==> forall k :: 0 <= k < |rotations| ==> NoAnchorAccepted(a, b, rotations[k])
  {
    for k := 0 to |rotations|
      invariant forall k' :: 0 <= k' < k ==> NoAnchorAccepted(a, b, rotations[k'])
    {
      r := SearchAnchors(a, b, rotations[k]);
      if r.Some? {
        return;
      }
    }
    return None;
  }

  /** `find_overlap`: tries every rotation and anchor pair and returns the
      first candidate that passes the forward count and the inverse check. */
  method FindOverlap(a: Scanner, b: Scanner) returns (r: Option<Matrix>)
    ensures r.Some? ==> Overlaps(a.elements, b.elements, r.value)
    ensures r.None? ==> NoOverlap(a.elements, b.elements)
  {
    r := SearchRotations(a.elements, b.elements, Rotations());
  }

  /** The inverse check in the frame of `b`: every beacon of `b` whose
      preimage under the candidate lies in the cube is the image of a
      beacon of `a`. */
  lemma BackwardMeaning(a: set<Point>, b: set<Point>, rotation: Matrix, pa: Point, pb: Point)
    requires Rotation(rotation)
    ensures BackwardHolds(a, b, InverseCandidate(rotation, pa, pb))
        <==> forall q :: q in b && InCube(Apply(q, InverseCandidate(rotation, pa, pb)))
               ==> exists p :: p in a && Apply(p, Candidate(rotation, pa, pb)) == q
  {
    var t := Candidate(rotation, pa, pb);
    var inv := InverseCandidate(rotation, pa, pb);
    forall q | q in b
      ensures (Apply(q, inv) in a) <==> exists p :: p in a && Apply(p, t) == q
    {
      CandidateInverse(rotation, pa, pb, Apply(q, inv), q);
      if p :| p in a && Apply(p, t) == q {
        CandidateInverse(rotation, pa, pb, p, q);
      }
    }
  }

  lemma OverlapsAffine(a: set<Point>, b: set<Point>, t: Matrix)
    requires Overlaps(a, b, t)
    ensures Affine(t)
  {
  }

  /** Under an accepted transform, a beacon of `a` mapped into the cube is
      a beacon of `b`, and placing `a` after `b`'s own transform puts it
      where `b` puts that beacon. */
  lemma OverlapAgrees(a: set<Point>, b: set<Point>, t: Matrix, offset: Matrix, p: Point)
    requires Overlaps(a, b, t) && IsMatrix(offset, 4, 4)
    requires p in a && InCube(Apply(p, t))
    ensures Apply(p, t) in b
    ensures Apply(p, Multiply(offset, t, 4, 4, 4)) == Apply(Apply(p, t), offset)
  {
    ApplyCompose(p, offset, t);
  }

  // ---------------------------------------------------------------------
  // calc_transforms
  // ---------------------------------------------------------------------

  /** A scanner with its transform forgotten, to compare scanners before
      and after placement. */
  function Unplaced(s: Scanner): Scanner {
    s.(transform := None)
  }

  function UnplacedAll(xs: seq<Scanner>): (r: seq<Scanner>)
    ensures |r| == |xs| && forall i {:trigger r[i]} :: 0 <= i < |xs| ==> r[i] == Unplaced(xs[i])
  {
    seq(|xs|, i requires 0 <= i < |xs| => Unplaced(xs[i]))
  }

  lemma UnplacedSnoc(xs: seq<Scanner>, x: Scanner)
    ensures multiset(UnplacedAll(xs + [x])) == multiset(UnplacedAll(xs)) + multiset{Unplaced(x)}
  {
    assert UnplacedAll(xs + [x]) == UnplacedAll(xs) + [Unplaced(x)];
  }

  lemma UnplacedAppend(xs: seq<Scanner>, ys: seq<Scanner>)
    ensures multiset(UnplacedAll(xs + ys)) == multiset(UnplacedAll(xs)) + multiset(UnplacedAll(ys))
  {
    assert UnplacedAll(xs + ys) == UnplacedAll(xs) + UnplacedAll(ys);
  }

  /** Every scanner of `xs` has an affine transform. */
  predicate Transformed(xs: seq<Scanner>) {
    forall i :: 0 <= i < |xs| ==> xs[i].transform.Some? && Affine(xs[i].transform.value)
  }

  /** `s` was placed from `base`: its transform is `base`'s transform
      after a transform that `find_overlap` accepts from `s` to `base`. */
  ghost predicate PlacedFrom(s: Scanner, base: Scanner) {
    s.transform.Some? && base.transform.Some? && IsMatrix(base.transform.value, 4, 4)
    && exists t :: Overlaps(s.elements, base.elements, t) && IsMatrix(t, 4, 4)
                   && s.transform.value == Multiply(base.transform.value, t, 4, 4, 4)
  }

  /** `s` was placed from one of `done`. */
  ghost predicate PlacedFromSome(s: Scanner, done: seq<Scanner>) {
    exists j :: 0 <= j < |done| && PlacedFrom(s, done[j])
  }

  /** Each scanner after the first was placed from an earlier one. */
  ghost predicate Chained(done: seq<Scanner>) {
    forall i :: 0 < i < |done| ==> PlacedFromSome(done[i], done[..i])
  }

  /** `done` is a placement begun from `scanners`: scanner 0 first with
      the identity, every scanner with a transform, every later one placed
      from an earlier one. */
  ghost predicate PartialPlacement(done: seq<Scanner>, scanners: seq<Scanner>) {
    |scanners| > 0 && |done| > 0
    && done[0] == scanners[0].(transform := Some(ID4))
    && Transformed(done)
    && Chained(done)
  }

  /** What `calc_transforms` returns for `scanners`: a placement holding
      the same scanners, in some order. */
  ghost predicate Placement(placed: seq<Scanner>, scanners: seq<Scanner>) {
    PartialPlacement(placed, scanners)
    && multiset(UnplacedAll(placed)) == multiset(UnplacedAll(scanners))
  }

  /** `s` overlaps none of `done`. */
  ghost predicate Stuck(s: Scanner, done: seq<Scanner>) {
    forall j :: 0 <= j < |done| ==> NoOverlap(s.elements, done[j].elements)
  }

  /** Why `calc_transforms` panics: the scanners split into a placement
      `done` and a non-empty rest `todo`, and no scanner of `todo`
      overlaps any placed one, so the search cannot grow the placement. */
  ghost predicate Closed(done: seq<Scanner>, todo: seq<Scanner>, scanners: seq<Scanner>) {
    PartialPlacement(done, scanners)
    && todo != []
    && multiset(UnplacedAll(done)) + multiset(UnplacedAll(todo)) == multiset(UnplacedAll(scanners))
    && TodoStuck(todo, done)
  }

  lemma ChainedKeep(done: seq<Scanner>, base: Scanner, i: nat)
    requires 0 < i < |done| && PlacedFromSome(done[i], done[..i])
    ensures PlacedFromSome((done + [base])[i], (done + [base])[..i])
  {
    PrefixOfSnoc(done, base, i);
  }

  lemma ChainedSnoc(done: seq<Scanner>, base: Scanner)
    requires Chained(done) && (done == [] || PlacedFromSome(base, done))
    ensures Chained(done + [base])
  {
    var d := done + [base];
    forall i | 0 < i < |d| ensures PlacedFromSome(d[i], d[..i]) {
      if i < |done| {
        ChainedKeep(done, base, i);
      } else {
        assert d[i] == base && d[..i] == done;
      }
    }
  }

  lemma TransformedSnoc(xs: seq<Scanner>, x: Scanner)
    requires Transformed(xs) && x.transform.Some? && Affine(x.transform.value)
    ensures Transformed(xs + [x])
  {
    var ys := xs + [x];
    forall i | 0 <= i < |ys| ensures ys[i].transform.Some? && Affine(ys[i].transform.value) {
      if i < |xs| {
        assert ys[i] == xs[i];
      }
    }
  }

  lemma PlacedFromLast(s: Scanner, done: seq<Scanner>, base: Scanner)
    requires PlacedFrom(s, base)
    ensures PlacedFromSome(s, done + [base])
  {
    assert (done + [base])[|done|] == base;
  }

  lemma PlacedFromMore(s: Scanner, done: seq<Scanner>, base: Scanner)
    requires PlacedFromSome(s, done)
    ensures PlacedFromSome(s, done + [base])
  {
    var j :| 0 <= j < |done| && PlacedFrom(s, done[j]);
    var d := done + [base];
    assert d[j] == done[j];
    assert 0 <= j < |d| && PlacedFrom(s, d[j]);
  }

  lemma StuckSnoc(s: Scanner, done: seq<Scanner>, base: Scanner)
    requires Stuck(s, done) && NoOverlap(s.elements, base.elements)
    ensures Stuck(s, done + [base])
  {
    var d := done + [base];
    forall j | 0 <= j < |d| ensures NoOverlap(s.elements, d[j].elements) {
      if j < |done| {
        assert d[j] == done[j];
      } else {
        assert d[j] == base;
      }
    }
  }

  /** `s` now has an affine transform obtained from `base`. */
  ghost predicate NewlyPlaced(s: Scanner, base: Scanner) {
    s.transform.Some? && Affine(s.transform.value) && PlacedFrom(s, base)
  }

  ghost predicate AllNewlyPlaced(xs: seq<Scanner>, base: Scanner) {
    forall k :: 0 <= k < |xs| ==> NewlyPlaced(xs[k], base)
  }

  lemma AllNewlyPlacedSnoc(xs: seq<Scanner>, x: Scanner, base: Scanner)
    requires AllNewlyPlaced(xs, base) && NewlyPlaced(x, base)
    ensures AllNewlyPlaced(xs + [x], base)
  {
    var ys := xs + [x];
    forall k | 0 <= k < |ys| ensures NewlyPlaced(ys[k], base) {
      if k < |xs| {
        assert ys[k] == xs[k];
      } else {
        assert ys[k] == x;
      }
    }
  }

  /** The scanners still to do overlap none of `done`. */
  ghost predicate TodoStuck(todo: seq<Scanner>, done: seq<Scanner>) {
    forall k :: 0 <= k < |todo| ==> Stuck(todo[k], done)
  }

  lemma TodoStuckSnoc(todo: seq<Scanner>, s: Scanner, done: seq<Scanner>)
    requires TodoStuck(todo, done) && Stuck(s, done)
    ensures TodoStuck(todo + [s], done)
  {
    var ys := todo + [s];
    forall k | 0 <= k < |ys| ensures Stuck(ys[k], done) {
      if k < |todo| {
        assert ys[k] == todo[k];
      } else {
        assert ys[k] == s;
      }
    }
  }

  /** Placing `s` by the transform `t` from `base`. */
  lemma PlaceOne(s: Scanner, base: Scanner, t: Matrix)
    requires base.transform.Some? && Affine(base.transform.value)
    requires Overlaps(s.elements, base.elements, t)
    ensures NewlyPlaced(s.(transform := Some(Multiply(base.transform.value, t, 4, 4, 4))), base)
  {
    AffineProduct(base.transform.value, t);
  }

  /** Moving `taken[i]`, with a new transform, to the placed scanners
      keeps the count. */
  lemma PlaceCount(taken: seq<Scanner>, i: nat, todo: seq<Scanner>, placed: seq<Scanner>, next: Scanner)
    requires i < |taken| && Unplaced(next) == Unplaced(taken[i])
    requires multiset(UnplacedAll(todo)) + multiset(UnplacedAll(placed)) == multiset(UnplacedAll(taken[..i]))
    ensures multiset(UnplacedAll(todo)) + multiset(UnplacedAll(placed + [next])) == multiset(UnplacedAll(taken[..i + 1]))
  {
    TakeSnoc(taken, i);
    UnplacedSnoc(taken[..i], taken[i]);
    UnplacedSnoc(placed, next);
  }

  /** The step of the loop of `PlaceFrom` that places `taken[i]` by the
      transform `t` from `base`. */
  lemma PlaceStep(base: Scanner, taken: seq<Scanner>, i: nat, todo: seq<Scanner>, placed: seq<Scanner>, t: Matrix)
    requires base.transform.Some? && Affine(base.transform.value)
    requires i < |taken| && Overlaps(taken[i].elements, base.elements, t)
    requires multiset(UnplacedAll(todo)) + multiset(UnplacedAll(placed)) == multiset(UnplacedAll(taken[..i]))
    requires AllNewlyPlaced(placed, base)
    ensures var next := taken[i].(transform := Some(Multiply(base.transform.value, t, 4, 4, 4)));
      multiset(UnplacedAll(todo)) + multiset(UnplacedAll(placed + [next])) == multiset(UnplacedAll(taken[..i + 1]))
      && AllNewlyPlaced(placed + [next], base)
  {
    var next := taken[i].(transform := Some(Multiply(base.transform.value, t, 4, 4, 4)));
    PlaceOne(taken[i], base, t);
    AllNewlyPlacedSnoc(placed, next, base);
    PlaceCount(taken, i, todo, placed, next);
  }

  /** The step of the loop of `PlaceFrom` that keeps `taken[i]` to do. */
  lemma KeepStep(base: Scanner, taken: seq<Scanner>, i: nat, todo: seq<Scanner>, placed: seq<Scanner>, done: seq<Scanner>)
    requires i < |taken| && NoOverlap(taken[i].elements, base.elements) && Stuck(taken[i], done)
    requires multiset(UnplacedAll(todo)) + multiset(UnplacedAll(placed)) == multiset(UnplacedAll(taken[..i]))
    requires TodoStuck(todo, done + [base])
    ensures multiset(UnplacedAll(todo + [taken[i]])) + multiset(UnplacedAll(placed))
         == multiset(UnplacedAll(taken[..i + 1]))
    ensures TodoStuck(todo + [taken[i]], done + [base])
  {
    StuckSnoc(taken[i], done, base);
    TodoStuckSnoc(todo, taken[i], done + [base]);
    TakeSnoc(taken, i);
    UnplacedSnoc(taken[..i], taken[i]);
    UnplacedSnoc(todo, taken[i]);
  }

  /** One pass of the `for` loop of `calc_transforms`: every scanner of
      `taken`, in order, is either placed from `base` (and pushed on the
      pending scanners) or kept to do because it overlaps nothing of
      `base`. */
  method PlaceFrom(base: Scanner, taken: seq<Scanner>, ghost done: seq<Scanner>) returns (todo: seq<Scanner>, placed: seq<Scanner>)
    requires base.transform.Some? && Affine(base.transform.value)
    requires TodoStuck(taken, done)
    ensures |todo| + |placed| == |taken|
    ensures multiset(UnplacedAll(todo)) + multiset(UnplacedAll(placed)) == multiset(UnplacedAll(taken))
    ensures AllNewlyPlaced(placed, base)
    ensures TodoStuck(todo, done + [base])
  {
    var offset := base.transform.value;
    todo := [];
    placed := [];
    for i := 0 to |taken|
      invariant |todo| + |placed| == i
      invariant multiset(UnplacedAll(todo)) + multiset(UnplacedAll(placed)) == multiset(UnplacedAll(taken[..i]))
      invariant AllNewlyPlaced(placed, base)
      invariant TodoStuck(todo, done + [base])
    {
      var scanner := taken[i];
      var found := FindOverlap(scanner, base);
      match found
      case Some(t) =>
        PlaceStep(base, taken, i, todo, placed, t);
        var transform := Multiply(offset, t, 4, 4, 4);
        placed := placed + [scanner.(transform := Some(transform))];
      case None =>
        KeepStep(base, taken, i, todo, placed, done);
        todo := todo + [scanner];
    }
    assert taken[..|taken|] == taken;
  }

  /** The scanners still pending were each placed from one of `done`. */
  ghost predicate PendingPlaced(pending: seq<Scanner>, done: seq<Scanner>) {
    forall k :: 0 <= k < |pending| ==> PlacedFromSome(pending[k], done)
  }

  /** After `base` has been used: the pending scanners, old and new, were
      placed from `done + [base]`. */
  lemma PendingStep(rest: seq<Scanner>, placed: seq<Scanner>, done: seq<Scanner>, base: Scanner)
    requires done != [] ==> PendingPlaced(rest, done)
    requires done == [] ==> rest == []
    requires AllNewlyPlaced(placed, base)
    ensures PendingPlaced(rest + placed, done + [base])
  {
    var p := rest + placed;
    forall k | 0 <= k < |p| ensures PlacedFromSome(p[k], done + [base]) {
      if k < |rest| {
        assert p[k] == rest[k];
        PlacedFromMore(rest[k], done, base);
      } else {
        assert p[k] == placed[k - |rest|];
        assert NewlyPlaced(placed[k - |rest|], base);
        PlacedFromLast(p[k], done, base);
      }
    }
  }

  lemma TransformedAppend(xs: seq<Scanner>, ys: seq<Scanner>, base: Scanner)
    requires Transformed(xs) && AllNewlyPlaced(ys, base)
    ensures Transformed(xs + ys)
  {
    var zs := xs + ys;
    forall i | 0 <= i < |zs| ensures zs[i].transform.Some? && Affine(zs[i].transform.value) {
      if i < |xs| {
        assert zs[i] == xs[i];
      } else {
        assert zs[i] == ys[i - |xs|];
        assert NewlyPlaced(ys[i - |xs|], base);
      }
    }
  }

  /** The start of `calc_transforms`: the input reversed, scanner 0 taken
      off the end. */
  lemma StartSplit(scanners: seq<Scanner>)
    requires |scanners| > 0
    ensures Reverse(scanners)[|scanners| - 1] == scanners[0]
    ensures multiset(UnplacedAll(Reverse(scanners)[..|scanners| - 1])) + multiset{Unplaced(scanners[0])}
         == multiset(UnplacedAll(scanners))
  {
    var rev := Reverse(scanners);
    UnplacedReverse(scanners);
    ButLast(rev);
    UnplacedSnoc(rev[..|rev| - 1], scanners[0]);
  }

  lemma UnplacedReverse(xs: seq<Scanner>)
    ensures multiset(UnplacedAll(Reverse(xs))) == multiset(UnplacedAll(xs))
  {
    ReverseMultiset(UnplacedAll(xs));
    assert UnplacedAll(Reverse(xs)) == Reverse(UnplacedAll(xs));
  }

  /** The scanners done form a placement from `scanner0`, and each
      pending one was placed from a done one. */
  ghost predicate Orderly(pending: seq<Scanner>, done: seq<Scanner>, scanner0: Scanner) {
    Transformed(pending) && Transformed(done) && Chained(done)
    && (done == [] ==> pending == [scanner0])
    && (done != [] ==> done[0] == scanner0 && PendingPlaced(pending, done))
  }

  /** The invariant of the loop of `calc_transforms`: every scanner is
      to do, pending or done; the done and pending ones are orderly;
      nothing to do overlaps a done one. */
  ghost predicate Progress(todo: seq<Scanner>, pending: seq<Scanner>, done: seq<Scanner>,
                           scanner0: Scanner, total: multiset<Scanner>)
  {
    multiset(UnplacedAll(todo)) + multiset(UnplacedAll(pending)) + multiset(UnplacedAll(done)) == total
    && Orderly(pending, done, scanner0)
    && TodoStuck(todo, done)
  }

  /** The scanner taken from `pending` has a transform. */
  lemma OrderlyBase(pending: seq<Scanner>, done: seq<Scanner>, scanner0: Scanner)
    requires Orderly(pending, done, scanner0) && pending != []
    ensures pending[|pending| - 1].transform.Some? && Affine(pending[|pending| - 1].transform.value)
  {
  }

  /** One turn of the loop of `calc_transforms` keeps the count of
      scanners. */
  lemma CountStep(todo: seq<Scanner>, pending: seq<Scanner>, done: seq<Scanner>, total: multiset<Scanner>,
                  todo': seq<Scanner>, placed: seq<Scanner>)
    requires pending != []
    requires multiset(UnplacedAll(todo)) + multiset(UnplacedAll(pending)) + multiset(UnplacedAll(done)) == total
    requires multiset(UnplacedAll(todo')) + multiset(UnplacedAll(placed)) == multiset(UnplacedAll(todo))
    ensures multiset(UnplacedAll(todo')) + multiset(UnplacedAll(pending[..|pending| - 1] + placed))
          + multiset(UnplacedAll(done + [pending[|pending| - 1]])) == total
  {
    var base := pending[|pending| - 1];
    var rest := pending[..|pending| - 1];
    ButLast(pending);
    UnplacedSnoc(rest, base);
    UnplacedAppend(rest, placed);
    UnplacedSnoc(done, base);
  }

  /** One turn of the loop of `calc_transforms` keeps the scanners done
      chained and the pending ones placed from them. */
  lemma ChainStep(pending: seq<Scanner>, done: seq<Scanner>, placed: seq<Scanner>)
    requires pending != [] && Chained(done)
    requires done == [] ==> |pending| == 1
    requires done != [] ==> PendingPlaced(pending, done)
    requires AllNewlyPlaced(placed, pending[|pending| - 1])
    ensures Chained(done + [pending[|pending| - 1]])
    ensures PendingPlaced(pending[..|pending| - 1] + placed, done + [pending[|pending| - 1]])
  {
    var base := pending[|pending| - 1];
    assert done != [] ==> PlacedFromSome(base, done);
    ChainedSnoc(done, base);
    PendingStep(pending[..|pending| - 1], placed, done, base);
  }

  /** One turn of the loop of `calc_transforms` keeps the scanners
      orderly. */
  lemma OrderlyStep(pending: seq<Scanner>, done: seq<Scanner>, scanner0: Scanner, placed: seq<Scanner>)
    requires Orderly(pending, done, scanner0) && pending != []
    requires AllNewlyPlaced(placed, pending[|pending| - 1])
    ensures Orderly(pending[..|pending| - 1] + placed, done + [pending[|pending| - 1]], scanner0)
  {
    var base := pending[|pending| - 1];
    ChainStep(pending, done, placed);
    TransformedAppend(pending[..|pending| - 1], placed, base);
    TransformedSnoc(done, base);
  }

  /** The state before the loop of `calc_transforms`. */
  lemma ProgressStart(scanners: seq<Scanner>)
    requires |scanners| > 0
    ensures var rev := Reverse(scanners);
      Progress(rev[..|rev| - 1], [rev[|rev| - 1].(transform := Some(ID4))], [],
               rev[|rev| - 1].(transform := Some(ID4)), multiset(UnplacedAll(scanners)))
  {
    var rev := Reverse(scanners);
    StartSplit(scanners);
    IdentityRotation();
    var scanner0 := rev[|rev| - 1].(transform := Some(ID4));
    assert UnplacedAll([scanner0]) == [Unplaced(scanner0)];
    assert UnplacedAll([]) == [];
  }

  /** The loop of `calc_transforms` has ended with scanners still to do:
      the placement is closed, none of them overlaps a placed scanner. */
  lemma ProgressStuck(todo: seq<Scanner>, done: seq<Scanner>, scanners: seq<Scanner>)
    requires |scanners| > 0 && todo != []
    requires Progress(todo, [], done, scanners[0].(transform := Some(ID4)), multiset(UnplacedAll(scanners)))
    ensures Closed(done, todo, scanners)
  {
    assert UnplacedAll([]) == [];
  }

  /** The loop of `calc_transforms` has ended with nothing to do: every
      scanner is placed. */
  lemma ProgressDone(done: seq<Scanner>, scanners: seq<Scanner>)
    requires |scanners| > 0
    requires Progress([], [], done, scanners[0].(transform := Some(ID4)), multiset(UnplacedAll(scanners)))
    ensures Placement(done, scanners)
  {
    assert UnplacedAll([]) == [];
  }

  /** `calc_transforms`: scanner 0 gets the identity; each scanner taken
      from `pending` tries to place every scanner still to do. The result
      is a placement of all scanners, or `None` where the final assert
      fails, and then some scanner overlaps none of the placed ones. */
  method CalcTransforms(scanners: seq<Scanner>) returns (r: Option<seq<Scanner>>)
    requires |scanners| > 0
    ensures r.Some? ==> Placement(r.value, scanners)
    ensures r.None? ==> exists done, todo :: Closed(done, todo, scanners)
  {
    ProgressStart(scanners);
    StartSplit(scanners);
    var todo := Reverse(scanners);
    var scanner0 := todo[|todo| - 1];
    todo := todo[..|todo| - 1];
    scanner0 := scanner0.(transform := Some(ID4));
    var pending := [scanner0];
    var done: seq<Scanner> := [];
    ghost var total := multiset(UnplacedAll(scanners));
    while pending != []
      invariant Progress(todo, pending, done, scanner0, total)
      decreases 2 * |todo| + |pending|
    {
      OrderlyBase(pending, done, scanner0);
      var base := pending[|pending| - 1];
      var placed, todo';
      todo', placed := PlaceFrom(base, todo, done);
      CountStep(todo, pending, done, total, todo', placed);
      OrderlyStep(pending, done, scanner0, placed);
      pending := pending[..|pending| - 1] + placed;
      done := done + [base];
      todo := todo';
    }
    if todo != [] {
      ProgressStuck(todo, done, scanners);
      return None;
    }
    ProgressDone(done, scanners);
    return Some(done);
  }

  // ---------------------------------------------------------------------
  // Input
  // ---------------------------------------------------------------------

  /** What one input line means to `parse_input`. */
  datatype LineKind = Blank | Header | Beacon(p: Point) | Ignored | Bad

  /** A blank line closes a scanner, a line starting with `---` is a
      header, three comma-separated parts are a beacon (a part that is not
      an integer panics), anything else is skipped. */
  function ClassifyLine(line: string): (r: LineKind)
    ensures r.Blank? <==> Trim(line) == []
    ensures r.Beacon? ==> (exists parts :: parts == SplitN(line, 3, ',') && |parts| == 3
                             && parts[0] != [] && parts[1] != [] && parts[2] != [])
  {
    if Trim(line) == [] then Blank
    else if StripPrefix(line, "---").Some? then Header
    else
      var parts := SplitN(line, 3, ',');
      if |parts| != 3 then Ignored
      else
        match (ParseInt(parts[0]), ParseInt(parts[1]), ParseInt(parts[2]))
        case (Some(x), Some(y), Some(z)) => Beacon(Point(x, y, z))
        case _ => Bad
  }

  /** The kind of every line. */
  function Kinds(lines: seq<string>): (r: seq<LineKind>)
    ensures |r| == |lines| && forall i {:trigger r[i]} :: 0 <= i < |lines| ==> r[i] == ClassifyLine(lines[i])
  {
    seq(|lines|, i requires 0 <= i < |lines| => ClassifyLine(lines[i]))
  }

  /** The scanners closed so far and the beacons of the open one after
      reading lines of the given kinds, or `None` once a line has
      panicked. */
  function ReadKinds(kinds: seq<LineKind>): Option<(seq<Scanner>, set<Point>)>
  {
    if kinds == [] then Some(([], {}))
    else
      match ReadKinds(kinds[..|kinds| - 1])
      case None => None
      case Some((closed, open)) =>
        match kinds[|kinds| - 1]
        case Blank => Some((closed + [Scanner(|closed|, None, open)], {}))
        case Beacon(p) => Some((closed, open + {p}))
        case Bad => None
        case _ => Some((closed, open))
  }

  /** Once a line has panicked, reading more lines does not recover. */
  lemma {:induction false} ReadKindsFailed(kinds: seq<LineKind>, i: nat)
    requires i <= |kinds| && ReadKinds(kinds[..i]).None?
    ensures ReadKinds(kinds).None?
    decreases |kinds| - i
  {
    if i < |kinds| {
      TakeTake(kinds, i);
      ReadKindsFailed(kinds, i + 1);
    } else {
      assert kinds[..i] == kinds;
    }
  }

  /** `parse_input`: the scanners of `lines`, the open one pushed last. */
  function ParseScanners(lines: seq<string>): (r: Option<seq<Scanner>>)
  {
    match ReadKinds(Kinds(lines))
    case None => None
    case Some((closed, open)) => Some(closed + [Scanner(|closed|, None, open)])
  }

  /** The number of blank lines. */
  function BlankCount(kinds: seq<LineKind>): nat {
    if kinds == [] then 0
    else BlankCount(kinds[..|kinds| - 1]) + (if kinds[|kinds| - 1].Blank? then 1 else 0)
  }

  /** Some beacon line names `p`. */
  predicate Listed(kinds: seq<LineKind>, p: Point) {
    exists j :: 0 <= j < |kinds| && kinds[j] == Beacon(p)
  }

  /** Reading fails exactly when some line panics. */
  lemma {:induction false} ReadKindsFails(kinds: seq<LineKind>)
    ensures ReadKinds(kinds).None? <==> exists j :: 0 <= j < |kinds| && kinds[j].Bad?
  {
    if kinds != [] {
      var init := kinds[..|kinds| - 1];
      ReadKindsFails(init);
      if exists j :: 0 <= j < |init| && init[j].Bad? {
        var j :| 0 <= j < |init| && init[j].Bad?;
        assert kinds[j] == init[j];
      } else if !kinds[|kinds| - 1].Bad? {
        forall j | 0 <= j < |kinds| ensures !kinds[j].Bad? {
          if j < |init| {
            assert kinds[j] == init[j];
          }
        }
      }
    }
  }

  /** Reading closes one scanner per blank line, numbered in order and
      without transforms. */
  lemma {:induction false} ReadKindsNumbers(kinds: seq<LineKind>)
    ensures ReadKinds(kinds).Some? ==>
      var closed := ReadKinds(kinds).value.0;
      |closed| == BlankCount(kinds)
      && forall i :: 0 <= i < |closed| ==> closed[i].number == i && closed[i].transform.None?
  {
    if kinds != [] {
      ReadKindsNumbers(kinds[..|kinds| - 1]);
    }
  }

  /** Every beacon read is named by a beacon line. */
  lemma {:induction false} ReadKindsListed(kinds: seq<LineKind>)
    ensures ReadKinds(kinds).Some? ==>
      var (closed, open) := ReadKinds(kinds).value;
      (forall i, p :: 0 <= i < |closed| && p in closed[i].elements ==> Listed(kinds, p))
      && (forall p :: p in open ==> Listed(kinds, p))
  {
    if kinds != [] {
      var init := kinds[..|kinds| - 1];
      ReadKindsListed(init);
      forall p | Listed(init, p) ensures Listed(kinds, p) {
        var j :| 0 <= j < |init| && init[j] == Beacon(p);
        assert kinds[j] == init[j];
      }
      if kinds[|kinds| - 1].Beacon? {
        assert Listed(kinds, kinds[|kinds| - 1].p);
      }
    }
  }

  /** What `parse_input` gives: it fails exactly when a line panics;
      otherwise one scanner more than there are blank lines, numbered
      `0, 1, ...`, none placed yet, holding only beacons that some line
      names. */
  lemma ParseScannersMeaning(lines: seq<string>)
    ensures ParseScanners(lines).None? <==> exists j :: 0 <= j < |lines| && ClassifyLine(lines[j]).Bad?
    ensures ParseScanners(lines).Some? ==>
      var r := ParseScanners(lines).value;
      |r| == BlankCount(Kinds(lines)) + 1
      && (forall i :: 0 <= i < |r| ==> r[i].number == i && r[i].transform.None?)
      && (forall i, p :: 0 <= i < |r| && p in r[i].elements ==>
            exists j :: 0 <= j < |lines| && ClassifyLine(lines[j]) == Beacon(p))
  {
    var kinds := Kinds(lines);
    ReadKindsFails(kinds);
    ReadKindsNumbers(kinds);
    ReadKindsListed(kinds);
    if (exists j :: 0 <= j < |lines| && ClassifyLine(lines[j]).Bad?) {
      var j :| 0 <= j < |lines| && ClassifyLine(lines[j]).Bad?;
      assert kinds[j].Bad?;
    }
    if ParseScanners(lines).Some? {
      var r := ParseScanners(lines).value;
      forall i, p | 0 <= i < |r| && p in r[i].elements
        ensures exists j :: 0 <= j < |lines| && ClassifyLine(lines[j]) == Beacon(p)
      {
        assert Listed(kinds, p);
        var j :| 0 <= j < |kinds| && kinds[j] == Beacon(p);
        assert ClassifyLine(lines[j]) == Beacon(p);
      }
    }
  }

  /** The loop of `parse_input`: blank lines close the current scanner,
      beacon lines add to it, a beacon that does not parse panics. */
  method ParseInput(lines: seq<string>) returns (r: Option<seq<Scanner>>)
    ensures r == ParseScanners(lines)
    ensures r.Some? ==> |r.value| >= 1
  {
    ghost var kinds := Kinds(lines);
    var result: seq<Scanner> := [];
    var elements: set<Point> := {};
    var idx := 0;
    for i := 0 to |lines|
      invariant ReadKinds(kinds[..i]) == Some((result, elements))
      invariant idx == |result|
    {
      TakeSnoc(kinds, i);
      assert kinds[..i + 1][..i] == kinds[..i];
      match ClassifyLine(lines[i])
      case Blank =>
        result := result + [Scanner(idx, None, elements)];
        idx := idx + 1;
        elements := {};
      case Beacon(p) =>
        elements := elements + {p};
      case Bad =>
        ReadKindsFailed(kinds, i + 1);
        return None;
      case _ =>
    }
    assert kinds[..|lines|] == kinds;
    result := result + [Scanner(idx, None, elements)];
    return Some(result);
  }

  // ---------------------------------------------------------------------
  // Puzzle answers
  // ---------------------------------------------------------------------

  /** Every beacon of every placed scanner, in the frame of scanner 0. */
  function GlobalBeacons(placed: seq<Scanner>): (r: set<Point>)
    requires Transformed(placed)
    ensures forall i, p :: 0 <= i < |placed| && p in placed[i].elements ==> Apply(p, placed[i].transform.value) in r
  {
    set i, p | 0 <= i < |placed| && p in placed[i].elements :: Apply(p, placed[i].transform.value)
  }

  /** Scanner 0 keeps its own frame, so its beacons are global beacons
      unchanged. */
  lemma FirstBeaconsGlobal(placed: seq<Scanner>, scanners: seq<Scanner>)
    requires Placement(placed, scanners)
    ensures scanners[0].elements <= GlobalBeacons(placed)
  {
    forall p | p in scanners[0].elements ensures p in GlobalBeacons(placed) {
      ApplyIdentity(p);
      assert Apply(p, placed[0].transform.value) in GlobalBeacons(placed);
    }
  }

  /** `part1`: the number of distinct beacons once every scanner is
      placed; `None` where the input or the placement panics. */
  method Part1(lines: seq<string>) returns (r: Option<nat>)
    ensures r.Some? ==> (ParseScanners(lines).Some?
      && exists placed :: Placement(placed, ParseScanners(lines).value) && r.value == |GlobalBeacons(placed)|)
    ensures r.None? ==> (ParseScanners(lines).None?
      || exists done, todo :: Closed(done, todo, ParseScanners(lines).value))
  {
    var scanners := ParseInput(lines);
    if scanners.None? {
      return None;
    }
    var placed := CalcTransforms(scanners.value);
    if placed.None? {
      return None;
    }
    return Some(|GlobalBeacons(placed.value)|);
  }

  /** `manhattan_distance`. */
  function ManhattanDistance(a: Point, b: Point): nat {
    Abs(a.x - b.x) + Abs(a.y - b.y) + Abs(a.z - b.z)
  }

  /** The distance is a metric: zero exactly on equal points, symmetric,
      and never more than a detour through a third point. */
  lemma ManhattanMetric(a: Point, b: Point, c: Point)
    ensures ManhattanDistance(a, b) == 0 <==> a == b
    ensures ManhattanDistance(a, b) == ManhattanDistance(b, a)
    ensures ManhattanDistance(a, c) <= ManhattanDistance(a, b) + ManhattanDistance(b, c)
  {
  }

  /** Where each placed scanner sits in the frame of scanner 0. */
  function Positions(placed: seq<Scanner>): (r: seq<Point>)
    requires Transformed(placed)
    ensures |r| == |placed|
    ensures forall i :: 0 <= i < |placed| ==> r[i] == Apply(Point(0, 0, 0), placed[i].transform.value)
  {
    seq(|placed|, i requires 0 <= i < |placed| => Apply(Point(0, 0, 0), placed[i].transform.value))
  }

  /** Scanner 0 sits at the origin. */
  lemma FirstAtOrigin(placed: seq<Scanner>, scanners: seq<Scanner>)
    requires Placement(placed, scanners)
    ensures Positions(placed)[0] == Point(0, 0, 0)
  {
    ApplyIdentity(Point(0, 0, 0));
  }

  /** The largest distance from `a` to a point of `ps`. */
  function MaxFrom(a: Point, ps: seq<Point>): nat
    requires |ps| > 0
  {
    if |ps| == 1 then ManhattanDistance(a, ps[0])
    else Max(MaxFrom(a, ps[..|ps| - 1]), ManhattanDistance(a, ps[|ps| - 1]))
  }

  /** No point of `ps` is further from `a` than `MaxFrom`. */
  lemma {:induction false} MaxFromBound(a: Point, ps: seq<Point>)
    requires |ps| > 0
    ensures forall j :: 0 <= j < |ps| ==> ManhattanDistance(a, ps[j]) <= MaxFrom(a, ps)
  {
    if |ps| > 1 {
      var init := ps[..|ps| - 1];
      MaxFromBound(a, init);
      forall j | 0 <= j < |ps| ensures ManhattanDistance(a, ps[j]) <= MaxFrom(a, ps) {
        if j < |ps| - 1 {
          assert init[j] == ps[j];
        }
      }
    }
  }

  /** Some point of `ps` is exactly `MaxFrom` away from `a`. */
  lemma {:induction false} MaxFromAttained(a: Point, ps: seq<Point>)
    requires |ps| > 0
    ensures exists j :: 0 <= j < |ps| && MaxFrom(a, ps) == ManhattanDistance(a, ps[j])
  {
    if |ps| > 1 {
      var init := ps[..|ps| - 1];
      MaxFromAttained(a, init);
      if MaxFrom(a, init) >= ManhattanDistance(a, ps[|ps| - 1]) {
        var j :| 0 <= j < |init| && MaxFrom(a, init) == ManhattanDistance(a, init[j]);
        assert init[j] == ps[j];
      } else {
        assert MaxFrom(a, ps) == ManhattanDistance(a, ps[|ps| - 1]);
      }
    } else {
      assert MaxFrom(a, ps) == ManhattanDistance(a, ps[0]);
    }
  }

  /** The iterator chain of `part2`: the largest distance between a
      point of `from` and a point of `ps`. */
  function MaxPairs(from: seq<Point>, ps: seq<Point>): nat
    requires |from| > 0 && |ps| > 0
  {
    if |from| == 1 then MaxFrom(from[0], ps)
    else Max(MaxPairs(from[..|from| - 1], ps), MaxFrom(from[|from| - 1], ps))
  }

  /** No pair is further apart than `MaxPairs`. */
  lemma {:induction false} MaxPairsBound(from: seq<Point>, ps: seq<Point>)
    requires |from| > 0 && |ps| > 0
    ensures forall i, j :: 0 <= i < |from| && 0 <= j < |ps| ==> ManhattanDistance(from[i], ps[j]) <= MaxPairs(from, ps)
  {
    var n := |from|;
    MaxFromBound(from[n - 1], ps);
    if n > 1 {
      var init := from[..n - 1];
      MaxPairsBound(init, ps);
      forall i, j | 0 <= i < n && 0 <= j < |ps| ensures ManhattanDistance(from[i], ps[j]) <= MaxPairs(from, ps) {
        if i < n - 1 {
          assert init[i] == from[i];
        }
      }
    }
  }

  /** Some pair is exactly `MaxPairs` apart. */
  lemma {:induction false} MaxPairsAttained(from: seq<Point>, ps: seq<Point>)
    requires |from| > 0 && |ps| > 0
    ensures exists i, j :: 0 <= i < |from| && 0 <= j < |ps| && MaxPairs(from, ps) == ManhattanDistance(from[i], ps[j])
  {
    var n := |from|;
    MaxFromAttained(from[n - 1], ps);
    if n > 1 {
      var init := from[..n - 1];
      MaxPairsAttained(init, ps);
      if MaxPairs(init, ps) >= MaxFrom(from[n - 1], ps) {
        var i, j :| 0 <= i < n - 1 && 0 <= j < |ps| && MaxPairs(init, ps) == ManhattanDistance(init[i], ps[j]);
        assert init[i] == from[i];
        assert MaxPairs(from, ps) == ManhattanDistance(from[i], ps[j]);
      } else {
        var j :| 0 <= j < |ps| && MaxFrom(from[n - 1], ps) == ManhattanDistance(from[n - 1], ps[j]);
        assert MaxPairs(from, ps) == ManhattanDistance(from[n - 1], ps[j]);
      }
    } else {
      var j :| 0 <= j < |ps| && MaxFrom(from[0], ps) == ManhattanDistance(from[0], ps[j]);
      assert MaxPairs(from, ps) == ManhattanDistance(from[0], ps[j]);
    }
  }

  /** `part2`: the largest distance between two scanners once every
      scanner is placed; `None` where the input or the placement panics. */
  method Part2(lines: seq<string>) returns (r: Option<nat>)
    ensures r.Some? ==> (ParseScanners(lines).Some?
      && exists placed :: Placement(placed, ParseScanners(lines).value)
           && r.value == MaxPairs(Positions(placed), Positions(placed)))
    ensures r.None? ==> (ParseScanners(lines).None?
      || exists done, todo :: Closed(done, todo, ParseScanners(lines).value))
  {
    var scanners := ParseInput(lines);
    if scanners.None? {
      return None;
    }
    var placed := CalcTransforms(scanners.value);
    if placed.None? {
      return None;
    }
    var positions := Positions(placed.value);
    return Some(MaxPairs(positions, positions));
  }
}
