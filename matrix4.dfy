/**
 * GenericMatrix4 of Matrix4.h: a row-major 4x4 matrix stored in an array
 * `m` of 16 elements, entry (row, column) at index column + row * 4. The
 * element type is modelled as exact real numbers.
 *
 * The value-level functions are the static constructors and the free
 * operators; the class keeps the array and its in-place operations, each
 * proved to give the value its free counterpart gives.
 */
module Matrices {
  type Mat = s: seq<real> | |s| == 16 witness IDENTITY

  datatype Vector3 = Vector3(x: real, y: real, z: real)

  /** k_identity. */
  const IDENTITY: seq<real> := [1.0, 0.0, 0.0, 0.0, 0.0, 1.0, 0.0, 0.0, 0.0, 0.0, 1.0, 0.0, 0.0, 0.0, 0.0, 1.0]

  /** Entry (r, c): operator()(r, c) of a matrix value. */
  function Elem(a: Mat, r: nat, c: nat): real
    requires r < 4 && c < 4
  {
    a[c + r * 4]
  }

  /** Static Transpose: entry (r, c) becomes entry (c, r). */
  function Transpose(a: Mat): (r: Mat)
    ensures forall i, j :: 0 <= i < 4 && 0 <= j < 4 ==> Elem(r, i, j) == Elem(a, j, i)
  {
    [a[0], a[4], a[8], a[12],
     a[1], a[5], a[9], a[13],
     a[2], a[6], a[10], a[14],
     a[3], a[7], a[11], a[15]]
  }

  /** Entry (r, c) of the product of `a` and `b`: row r of `a` times column c of `b`. */
  function Dot(a: Mat, b: Mat, r: nat, c: nat): real
    requires r < 4 && c < 4
  {
    a[r * 4] * b[c] + a[r * 4 + 1] * b[4 + c] + a[r * 4 + 2] * b[8 + c] + a[r * 4 + 3] * b[12 + c]
  }

  /** The free operator*: the row-major product. */
  function Mul(a: Mat, b: Mat): Mat
  {
    seq(16, k requires 0 <= k < 16 => Dot(a, b, k / 4, k % 4))
  }

  /** The free operator+. */
  function Add(a: Mat, b: Mat): (r: Mat)
    ensures forall k :: 0 <= k < 16 ==> r[k] == a[k] + b[k]
  {
    seq(16, k requires 0 <= k < 16 => a[k] + b[k])
  }

  /** The free operator-. */
  function Sub(a: Mat, b: Mat): (r: Mat)
    ensures forall k :: 0 <= k < 16 ==> r[k] == a[k] - b[k]
  {
    seq(16, k requires 0 <= k < 16 => a[k] - b[k])
  }

  /** The free operator* with a scalar, on either side. */
  function Scale(a: Mat, s: real): (r: Mat)
    ensures forall k :: 0 <= k < 16 ==> r[k] == a[k] * s
  {
    seq(16, k requires 0 <= k < 16 => a[k] * s)
  }

  /** The free operator/ with a scalar. */
  function Div(a: Mat, s: real): (r: Mat)
    requires s != 0.0
    ensures forall k :: 0 <= k < 16 ==> r[k] == a[k] / s
  {
    seq(16, k requires 0 <= k < 16 => a[k] / s)
  }

  /** Determinant: the cofactor expansion as the source writes it. */
  function Determinant(a: Mat): (r: real)
    ensures a[0] == 0.0 && a[1] == 0.0 && a[2] == 0.0 && a[3] == 0.0 ==> r == 0.0
    ensures a[12] == 0.0 && a[13] == 0.0 && a[14] == 0.0 && a[15] == 0.0 ==> r == 0.0
  {
    a[3] * a[6] * a[9] * a[12] - a[2] * a[7] * a[9] * a[12] - a[3] * a[5] * a[10] * a[12] + a[1] * a[7] * a[10] * a[12]
    + a[2] * a[5] * a[11] * a[12] - a[1] * a[6] * a[11] * a[12] - a[3] * a[6] * a[8] * a[13] + a[2] * a[7] * a[8] * a[13]
    + a[3] * a[4] * a[10] * a[13] - a[0] * a[7] * a[10] * a[13] - a[2] * a[4] * a[11] * a[13] + a[0] * a[6] * a[11] * a[13]
    + a[3] * a[5] * a[8] * a[14] - a[1] * a[7] * a[8] * a[14] - a[3] * a[4] * a[9] * a[14] + a[0] * a[7] * a[9] * a[14]
    + a[1] * a[4] * a[11] * a[14] - a[0] * a[5] * a[11] * a[14] - a[2] * a[5] * a[8] * a[15] + a[1] * a[6] * a[8] * a[15]
    + a[2] * a[4] * a[9] * a[15] - a[0] * a[6] * a[9] * a[15] - a[1] * a[4] * a[10] * a[15] + a[0] * a[5] * a[10] * a[15]
  }

  /** Static Inverse: a matrix whose determinant is 0 is returned unchanged. */
  function Inverse(a: Mat): (r: Mat)
    ensures Determinant(a) == 0.0 ==> r == a
  {
    var d := Determinant(a);
    if d == 0.0 then a
    else
     [
      (a[6] * a[11] * a[13] - a[7] * a[10] * a[13] + a[7] * a[9] * a[14] - a[5] * a[11] * a[14] - a[6] * a[9] * a[15] + a[5] * a[10] * a[15]) / d,
      (a[3] * a[10] * a[13] - a[2] * a[11] * a[13] - a[3] * a[9] * a[14] + a[1] * a[11] * a[14] + a[2] * a[9] * a[15] - a[1] * a[10] * a[15]) / d,
      (a[2] * a[7] * a[13] - a[3] * a[6] * a[13] + a[3] * a[5] * a[14] - a[1] * a[7] * a[14] - a[2] * a[5] * a[15] + a[1] * a[6] * a[15]) / d,
      (a[3] * a[6] * a[9] - a[2] * a[7] * a[9] - a[3] * a[5] * a[10] + a[1] * a[7] * a[10] + a[2] * a[5] * a[11] - a[1] * a[6] * a[11]) / d,
      (a[7] * a[10] * a[12] - a[6] * a[11] * a[12] - a[7] * a[8] * a[14] + a[4] * a[11] * a[14] + a[6] * a[8] * a[15] - a[4] * a[10] * a[15]) / d,
      (a[2] * a[11] * a[12] - a[3] * a[10] * a[12] + a[3] * a[8] * a[14] - a[0] * a[11] * a[14] - a[2] * a[8] * a[15] + a[0] * a[10] * a[15]) / d,
      (a[3] * a[6] * a[12] - a[2] * a[7] * a[12] - a[3] * a[4] * a[14] + a[0] * a[7] * a[14] + a[2] * a[4] * a[15] - a[0] * a[6] * a[15]) / d,
      (a[2] * a[7] * a[8] - a[3] * a[6] * a[8] + a[3] * a[4] * a[10] - a[0] * a[7] * a[10] - a[2] * a[4] * a[11] + a[0] * a[6] * a[11]) / d,
      (a[5] * a[11] * a[12] - a[7] * a[9] * a[12] + a[7] * a[8] * a[13] - a[4] * a[11] * a[13] - a[5] * a[8] * a[15] + a[4] * a[9] * a[15]) / d,
      (a[3] * a[9] * a[12] - a[1] * a[11] * a[12] - a[3] * a[8] * a[13] + a[0] * a[11] * a[13] + a[1] * a[8] * a[15] - a[0] * a[9] * a[15]) / d,
      (a[1] * a[7] * a[12] - a[3] * a[5] * a[12] + a[3] * a[4] * a[13] - a[0] * a[7] * a[13] - a[1] * a[4] * a[15] + a[0] * a[5] * a[15]) / d,
      (a[3] * a[5] * a[8] - a[1] * a[7] * a[8] - a[3] * a[4] * a[9] + a[0] * a[7] * a[9] + a[1] * a[4] * a[11] - a[0] * a[5] * a[11]) / d,
      (a[6] * a[9] * a[12] - a[5] * a[10] * a[12] - a[6] * a[8] * a[13] + a[4] * a[10] * a[13] + a[5] * a[8] * a[14] - a[4] * a[9] * a[14]) / d,
      (a[1] * a[10] * a[12] - a[2] * a[9] * a[12] + a[2] * a[8] * a[13] - a[0] * a[10] * a[13] - a[1] * a[8] * a[14] + a[0] * a[9] * a[14]) / d,
      (a[2] * a[5] * a[12] - a[1] * a[6] * a[12] - a[2] * a[4] * a[13] + a[0] * a[6] * a[13] + a[1] * a[4] * a[14] - a[0] * a[5] * a[14]) / d,
      (a[1] * a[6] * a[8] - a[2] * a[5] * a[8] + a[2] * a[4] * a[9] - a[0] * a[6] * a[9] - a[1] * a[4] * a[10] + a[0] * a[5] * a[10]) / d
     ]
  }

  /** CreateTranslation: the identity with the translation in the last row. */
  function CreateTranslation(t: Vector3): (r: Mat)
    ensures forall i, j :: 0 <= i < 3 && 0 <= j < 4 ==> Elem(r, i, j) == Elem(IDENTITY, i, j)
    ensures Elem(r, 3, 0) == t.x && Elem(r, 3, 1) == t.y && Elem(r, 3, 2) == t.z && Elem(r, 3, 3) == 1.0
  {
    [1.0, 0.0, 0.0, 0.0,
     0.0, 1.0, 0.0, 0.0,
     0.0, 0.0, 1.0, 0.0,
     t.x, t.y, t.z, 1.0]
  }

  function CreateScale(s: Vector3): (r: Mat)
    ensures Elem(r, 0, 0) == s.x && Elem(r, 1, 1) == s.y && Elem(r, 2, 2) == s.z && Elem(r, 3, 3) == 1.0
    ensures forall i, j :: 0 <= i < 4 && 0 <= j < 4 && i != j ==> Elem(r, i, j) == 0.0
  {
    [s.x, 0.0, 0.0, 0.0,
     0.0, s.y, 0.0, 0.0,
     0.0, 0.0, s.z, 0.0,
     0.0, 0.0, 0.0, 1.0]
  }

  /** GetTranslation: the last row's first three entries. */
  function GetTranslation(a: Mat): (r: Vector3)
    ensures r == Vector3(Elem(a, 3, 0), Elem(a, 3, 1), Elem(a, 3, 2))
  {
    Vector3(a[12], a[13], a[14])
  }

  /** The in-place `a *= a` as written: entry `k` is computed from the original `c` and the partly updated matrix. */
  function SelfMulFrom(c: Mat, k: nat): (s: Mat)
    requires k <= 16
    ensures forall j :: k <= j < 16 ==> s[j] == c[j]
  {
    if k == 0 then c
    else
      var s := SelfMulFrom(c, k - 1);
      s[k - 1 := Dot(c, s, (k - 1) / 4, (k - 1) % 4)]
  }

  // ---------------------------------------------------------------------
  // Properties of the value-level operations
  // ---------------------------------------------------------------------

  /** k_identity has 1 on the diagonal and 0 elsewhere. */
  lemma IdentityEntries()
    ensures forall i, j :: 0 <= i < 4 && 0 <= j < 4 ==> Elem(IDENTITY, i, j) == if i == j then 1.0 else 0.0
  {
  }

  lemma TransposeInvolution(a: Mat)
    ensures Transpose(Transpose(a)) == a
  {
  }

  /** Two matrices with the same 16 entries are equal. */
  lemma SameEntries(x: Mat, y: Mat)
    requires x[0] == y[0] && x[1] == y[1] && x[2] == y[2] && x[3] == y[3]
    requires x[4] == y[4] && x[5] == y[5] && x[6] == y[6] && x[7] == y[7]
    requires x[8] == y[8] && x[9] == y[9] && x[10] == y[10] && x[11] == y[11]
    requires x[12] == y[12] && x[13] == y[13] && x[14] == y[14] && x[15] == y[15]
    ensures x == y
  {
    forall k | 0 <= k < 16
      ensures x[k] == y[k]
    {
      assert k in {0, 1, 2, 3, 4, 5, 6, 7, 8, 9, 10, 11, 12, 13, 14, 15};
    }
  }

  /** The identity is neutral on both sides of the product. */
  lemma IdentityNeutral(a: Mat)
    ensures Mul(IDENTITY, a) == a && Mul(a, IDENTITY) == a
  {
    IdentityLeftRow0(a);
    IdentityLeftRow1(a);
    IdentityLeftRow2(a);
    IdentityLeftRow3(a);
    SameEntries(Mul(IDENTITY, a), a);
    IdentityRightRow0(a);
    IdentityRightRow1(a);
    IdentityRightRow2(a);
    IdentityRightRow3(a);
    SameEntries(Mul(a, IDENTITY), a);
  }

  lemma IdentityLeftRow0(a: Mat)
    ensures Mul(IDENTITY, a)[0] == a[0] && Mul(IDENTITY, a)[1] == a[1] && Mul(IDENTITY, a)[2] == a[2] && Mul(IDENTITY, a)[3] == a[3]
  {
  }

  lemma IdentityLeftRow1(a: Mat)
    ensures Mul(IDENTITY, a)[4] == a[4] && Mul(IDENTITY, a)[5] == a[5] && Mul(IDENTITY, a)[6] == a[6] && Mul(IDENTITY, a)[7] == a[7]
  {
  }

  lemma IdentityLeftRow2(a: Mat)
    ensures Mul(IDENTITY, a)[8] == a[8] && Mul(IDENTITY, a)[9] == a[9] && Mul(IDENTITY, a)[10] == a[10] && Mul(IDENTITY, a)[11] == a[11]
  {
  }

  lemma IdentityLeftRow3(a: Mat)
    ensures Mul(IDENTITY, a)[12] == a[12] && Mul(IDENTITY, a)[13] == a[13] && Mul(IDENTITY, a)[14] == a[14] && Mul(IDENTITY, a)[15] == a[15]
  {
  }

  lemma IdentityRightRow0(a: Mat)
    ensures Mul(a, IDENTITY)[0] == a[0] && Mul(a, IDENTITY)[1] == a[1] && Mul(a, IDENTITY)[2] == a[2] && Mul(a, IDENTITY)[3] == a[3]
  {
  }

  lemma IdentityRightRow1(a: Mat)
    ensures Mul(a, IDENTITY)[4] == a[4] && Mul(a, IDENTITY)[5] == a[5] && Mul(a, IDENTITY)[6] == a[6] && Mul(a, IDENTITY)[7] == a[7]
  {
  }

  lemma IdentityRightRow2(a: Mat)
    ensures Mul(a, IDENTITY)[8] == a[8] && Mul(a, IDENTITY)[9] == a[9] && Mul(a, IDENTITY)[10] == a[10] && Mul(a, IDENTITY)[11] == a[11]
  {
  }

  lemma IdentityRightRow3(a: Mat)
    ensures Mul(a, IDENTITY)[12] == a[12] && Mul(a, IDENTITY)[13] == a[13] && Mul(a, IDENTITY)[14] == a[14] && Mul(a, IDENTITY)[15] == a[15]
  {
  }

  lemma SubUndoesAdd(a: Mat, b: Mat)
    ensures Sub(Add(a, b), b) == a
  {
  }

  lemma DivUndoesScale(a: Mat, s: real)
    requires s != 0.0
    ensures Div(Scale(a, s), s) == a
  {
    var r := Div(Scale(a, s), s);
    forall k | 0 <= k < 16
      ensures r[k] == a[k]
    {
      assert r[k] == (a[k] * s) / s;
    }
  }

  /** GetTranslation reads back what CreateTranslation stored. */
  lemma TranslationRoundTrip(t: Vector3)
    ensures GetTranslation(CreateTranslation(t)) == t
  {
  }

  /** Translations compose by adding their vectors. */
  lemma TranslationsCompose(t: Vector3, u: Vector3)
    ensures Mul(CreateTranslation(t), CreateTranslation(u)) == CreateTranslation(Vector3(t.x + u.x, t.y + u.y, t.z + u.z))
  {
    TranslationsComposeRow0(t, u);
    TranslationsComposeRow1(t, u);
    TranslationsComposeRow2(t, u);
    TranslationsComposeRow3(t, u);
    SameEntries(Mul(CreateTranslation(t), CreateTranslation(u)), CreateTranslation(Vector3(t.x + u.x, t.y + u.y, t.z + u.z)));
  }

  lemma TranslationsComposeRow0(t: Vector3, u: Vector3)
    ensures var l, r := Mul(CreateTranslation(t), CreateTranslation(u)), CreateTranslation(Vector3(t.x + u.x, t.y + u.y, t.z + u.z));
      l[0] == r[0] && l[1] == r[1] && l[2] == r[2] && l[3] == r[3]
  {
  }

  lemma TranslationsComposeRow1(t: Vector3, u: Vector3)
    ensures var l, r := Mul(CreateTranslation(t), CreateTranslation(u)), CreateTranslation(Vector3(t.x + u.x, t.y + u.y, t.z + u.z));
      l[4] == r[4] && l[5] == r[5] && l[6] == r[6] && l[7] == r[7]
  {
  }

  lemma TranslationsComposeRow2(t: Vector3, u: Vector3)
    ensures var l, r := Mul(CreateTranslation(t), CreateTranslation(u)), CreateTranslation(Vector3(t.x + u.x, t.y + u.y, t.z + u.z));
      l[8] == r[8] && l[9] == r[9] && l[10] == r[10] && l[11] == r[11]
  {
  }

  lemma TranslationsComposeRow3(t: Vector3, u: Vector3)
    ensures var l, r := Mul(CreateTranslation(t), CreateTranslation(u)), CreateTranslation(Vector3(t.x + u.x, t.y + u.y, t.z + u.z));
      l[12] == r[12] && l[13] == r[13] && l[14] == r[14] && l[15] == r[15]
  {
  }

  /** The determinant of the identity is 1, so its inverse is computed, and is the identity. */
  lemma IdentityDeterminant()
    ensures Determinant(IDENTITY) == 1.0
    ensures Inverse(IDENTITY) == IDENTITY
  {
  }

  /** The determinant of a scale matrix is the product of its factors. */
  lemma ScaleDeterminant(v: Vector3)
    ensures Determinant(CreateScale(v)) == v.x * v.y * v.z
  {
  }

  /** The 3x3 determinant of rows 1 to 3 restricted to the columns c0, c1 and c2, expanded along its first row. */
  function Det3(a: Mat, c0: nat, c1: nat, c2: nat): real
    requires c0 < 4 && c1 < 4 && c2 < 4
  {
    Elem(a, 1, c0) * (Elem(a, 2, c1) * Elem(a, 3, c2) - Elem(a, 2, c2) * Elem(a, 3, c1))
    - Elem(a, 1, c1) * (Elem(a, 2, c0) * Elem(a, 3, c2) - Elem(a, 2, c2) * Elem(a, 3, c0))
    + Elem(a, 1, c2) * (Elem(a, 2, c0) * Elem(a, 3, c1) - Elem(a, 2, c1) * Elem(a, 3, c0))
  }

  /** The determinant by cofactor expansion along the first row: each entry times its signed minor. */
  function Laplace(a: Mat): real
  {
    Elem(a, 0, 0) * Det3(a, 1, 2, 3) - Elem(a, 0, 1) * Det3(a, 0, 2, 3)
    + Elem(a, 0, 2) * Det3(a, 0, 1, 3) - Elem(a, 0, 3) * Det3(a, 0, 1, 2)
  }

  /** The source's 24-term Determinant is the cofactor expansion along the first row. */
  lemma DeterminantIsLaplace(a: Mat)
    ensures Determinant(a) == Laplace(a)
  {
  }

  /** A matrix and its transpose have the same determinant. */
  lemma DeterminantOfTranspose(a: Mat)
    ensures Determinant(Transpose(a)) == Determinant(a)
  {
  }

  /** Inverting a scale matrix with no zero factor scales by the reciprocals. */
  lemma ScaleInverse(v: Vector3)
    requires v.x != 0.0 && v.y != 0.0 && v.z != 0.0
    ensures Inverse(CreateScale(v)) == CreateScale(Vector3(1.0 / v.x, 1.0 / v.y, 1.0 / v.z))
  {
    ScaleDeterminant(v);
    var d := v.x * v.y * v.z;
    assert d != 0.0;
    var r, w := Inverse(CreateScale(v)), CreateScale(Vector3(1.0 / v.x, 1.0 / v.y, 1.0 / v.z));
    assert r[0] == v.y * v.z / d == 1.0 / v.x;
    assert r[5] == v.x * v.z / d == 1.0 / v.y;
    assert r[10] == v.x * v.y / d == 1.0 / v.z;
    assert r[15] == d / d == 1.0;
    assert r[1] == 0.0;
    assert r[2] == 0.0;
    assert r[3] == 0.0;
    assert r[4] == 0.0;
    assert r[6] == 0.0;
    assert r[7] == 0.0;
    assert r[8] == 0.0;
    assert r[9] == 0.0;
    assert r[11] == 0.0;
    assert r[12] == 0.0;
    assert r[13] == 0.0;
    assert r[14] == 0.0;
    SameEntries(r, w);
  }

  /** A nonzero singular matrix: the all-ones matrix has determinant 0, so Inverse returns it unchanged. */
  lemma SingularInverseIsInput()
    ensures Determinant(ONES) == 0.0 && Inverse(ONES) == ONES
  {
  }

  /** Entries the aliased product has written are not written again. */
  lemma {:induction false} SelfMulKeeps(c: Mat, k: nat, n: nat)
    requires k <= n <= 16
    ensures forall j :: 0 <= j < k ==> SelfMulFrom(c, n)[j] == SelfMulFrom(c, k)[j]
    decreases n - k
  {
    if k < n {
      SelfMulKeeps(c, k, n - 1);
    }
  }

  const ONES: Mat := seq(16, k => 1.0)

  /** The first row of the aliased product of the all-ones matrix is all fours. */
  lemma OnesFirstRow()
    ensures SelfMulFrom(ONES, 4)[0] == 4.0
  {
    assert SelfMulFrom(ONES, 1)[0] == 4.0;
    assert SelfMulFrom(ONES, 2)[0] == 4.0;
    assert SelfMulFrom(ONES, 3)[0] == 4.0;
  }

  lemma OnesProduct()
    ensures Mul(ONES, ONES)[4] == 4.0
  {
    assert Mul(ONES, ONES)[4] == Dot(ONES, ONES, 1, 0);
  }

  /** `a *= a` as written: for the all-ones matrix entry (1, 0) becomes 7, where the product has 4. */
  lemma SelfProductAsWrittenDiffers()
    ensures SelfMulFrom(ONES, 16)[4] == 7.0
    ensures Mul(ONES, ONES)[4] == 4.0
  {
    SelfMulKeeps(ONES, 5, 16);
    OnesFirstRow();
    OnesProduct();
    var s4 := SelfMulFrom(ONES, 4);
    assert SelfMulFrom(ONES, 5)[4] == Dot(ONES, s4, 1, 0) == 7.0;
  }

  // ---------------------------------------------------------------------
  // The class: the array `m` and the in-place operations
  // ---------------------------------------------------------------------

  class Matrix4 {
    const m: array<real>

    ghost predicate Valid()
      reads this
    {
      m.Length == 16
    }

    /** The default constructor: the identity. */
    constructor()
      ensures Valid() && fresh(m) && m[..] == IDENTITY
    {
      m := new real[16](k => if k % 5 == 0 then 1.0 else 0.0);
      new;
      assert m[..] == IDENTITY;
    }

    /** The constructor from 16 values in row-major order. */
    constructor Of(values: Mat)
      ensures Valid() && fresh(m) && m[..] == values
    {
      m := new real[16](k requires 0 <= k < 16 => values[k]);
    }

    /** operator(): entry (r, c), which is m[c + r * 4]. */
    function At(r: nat, c: nat): (v: real)
      requires Valid() && r < 4 && c < 4
      reads this, m
      ensures v == Elem(m[..], r, c)
    {
      m[c + r * 4]
    }

    /** Identity(): sets the identity in place. */
    method Identity()
      requires Valid()
      modifies m
      ensures m[..] == IDENTITY
    {
      forall k | 0 <= k < 16 {
        m[k] := if k % 5 == 0 then 1.0 else 0.0;
      }
      assert m[..] == IDENTITY;
    }

    /** Transpose(): in place, from a copy. */
    method TransposeInPlace()
      requires Valid()
      modifies m
      ensures m[..] == Transpose(old(m[..]))
    {
      var a := Transpose(m[..]);
      forall k | 0 <= k < 16 {
        m[k] := a[k];
      }
    }

    /** Inverse(): `*this = Inverse(*this)`. */
    method InverseInPlace()
      requires Valid()
      modifies m
      ensures m[..] == Inverse(old(m[..]))
    {
      var a := Inverse(m[..]);
      forall k | 0 <= k < 16 {
        m[k] := a[k];
      }
    }

    /** operator+=: entry by entry; `b` may be this matrix. */
    method AddAssign(b: Matrix4)
      requires Valid() && b.Valid()
      modifies m
      ensures m[..] == Add(old(m[..]), old(b.m[..]))
    {
      for k := 0 to 16
        invariant forall j :: 0 <= j < k ==> m[j] == old(m[j]) + old(b.m[j])
        invariant forall j :: k <= j < 16 ==> m[j] == old(m[j]) && b.m[j] == old(b.m[j])
      {
        m[k] := m[k] + b.m[k];
      }
    }

    /** operator-=: entry by entry; `b` may be this matrix. */
    method SubAssign(b: Matrix4)
      requires Valid() && b.Valid()
      modifies m
      ensures m[..] == Sub(old(m[..]), old(b.m[..]))
    {
      for k := 0 to 16
        invariant forall j :: 0 <= j < k ==> m[j] == old(m[j]) - old(b.m[j])
        invariant forall j :: k <= j < 16 ==> m[j] == old(m[j]) && b.m[j] == old(b.m[j])
      {
        m[k] := m[k] - b.m[k];
      }
    }

    /** operator*= with a scalar. */
    method ScaleAssign(s: real)
      requires Valid()
      modifies m
      ensures m[..] == Scale(old(m[..]), s)
    {
      for k := 0 to 16
        invariant forall j :: 0 <= j < k ==> m[j] == old(m[j]) * s
        invariant forall j :: k <= j < 16 ==> m[j] == old(m[j])
      {
        m[k] := m[k] * s;
      }
      forall k | 0 <= k < 16
        ensures m[..][k] == Scale(old(m[..]), s)[k]
      {
        assert old(m[..])[k] == old(m[k]);
      }
    }

    /** operator/= with a scalar. */
    method DivAssign(s: real)
      requires Valid() && s != 0.0
      modifies m
      ensures m[..] == Div(old(m[..]), s)
    {
      for k := 0 to 16
        invariant forall j :: 0 <= j < k ==> m[j] == old(m[j]) / s
        invariant forall j :: k <= j < 16 ==> m[j] == old(m[j])
      {
        m[k] := m[k] / s;
      }
    }

    /**
     * operator*= as written: this matrix is copied first, `b` is not, and
     * the entries are written in index order. When `b` is this matrix, later
     * entries read entries already overwritten.
     */
    method MulAssignAsWritten(b: Matrix4)
      requires Valid() && b.Valid()
      modifies m
      ensures b.m != m ==> m[..] == Mul(old(m[..]), old(b.m[..]))
      ensures b.m == m ==> m[..] == SelfMulFrom(old(m[..]), 16)
    {
      var c := m[..];
      ghost var p := Mul(c, b.m[..]);
      for k := 0 to 16
        invariant b.m != m ==> b.m[..] == old(b.m[..])
        invariant b.m != m ==> forall j :: 0 <= j < k ==> m[j] == p[j]
        invariant b.m == m ==> m[..] == SelfMulFrom(c, k)
      {
        m[k] := Dot(c, b.m[..], k / 4, k % 4);
      }
      if b.m != m {
        assert m[..] == p;
      }
    }

    /** operator*= with both operands copied first: the product, also when `b` is this matrix. */
    method MulAssign(b: Matrix4)
      requires Valid() && b.Valid()
      modifies m
      ensures m[..] == Mul(old(m[..]), old(b.m[..]))
    {
      var c, d := m[..], b.m[..];
      ghost var p := Mul(c, d);
      for k := 0 to 16
        invariant forall j :: 0 <= j < k ==> m[j] == p[j]
      {
        m[k] := Dot(c, d, k / 4, k % 4);
      }
      assert m[..] == p;
    }

    /** Translate: `*this *= CreateTranslation(t)`. */
    method Translate(t: Vector3)
      requires Valid()
      modifies m
      ensures m[..] == Mul(old(m[..]), CreateTranslation(t))
    {
      var tm := new Matrix4.Of(CreateTranslation(t));
      MulAssignAsWritten(tm);
    }

    /** Scale: `*this *= CreateScale(s)`. */
    method ScaleBy(s: Vector3)
      requires Valid()
      modifies m
      ensures m[..] == Mul(old(m[..]), CreateScale(s))
    {
      var sm := new Matrix4.Of(CreateScale(s));
      MulAssignAsWritten(sm);
    }
  }

  /** operator==: all 16 entries equal. */
  method Equals(a: Matrix4, b: Matrix4) returns (r: bool)
    requires a.Valid() && b.Valid()
    ensures r <==> a.m[..] == b.m[..]
  {
    for i := 0 to 16
      invariant forall j :: 0 <= j < i ==> a.m[j] == b.m[j]
    {
      if a.m[i] != b.m[i] {
        return false;
      }
    }
    assert a.m[..] == b.m[..];
    return true;
  }

  /** operator!=: the negation of operator==. */
  method NotEquals(a: Matrix4, b: Matrix4) returns (r: bool)
    requires a.Valid() && b.Valid()
    ensures r <==> a.m[..] != b.m[..]
  {
    var eq := Equals(a, b);
    r := !eq;
  }
}
