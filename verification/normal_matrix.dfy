// The normal matrix of renderPage: invTransposeM turns an affine model-view
// matrix whose upper-left 3x3 is a rotation into the transpose of its inverse
// by copying and negating entries, without a general matrix inversion.

module NormalMatrix {

  /** A column of a 4x4 matrix, or a homogeneous point or direction. */
  datatype Vec4 = Vec4(x: real, y: real, z: real, w: real)

  /**
   * A 4x4 matrix by columns. The Java keeps it as 16 floats in
   * column-major order (android.opengl.Matrix): entry 4 * c + r is row r of
   * column c. Columns c0, c1, c2 are the axes R0, R1, R2 of the upper-left
   * 3x3 (with the bottom row in w); column c3 is the translation T.
   * Entries are exact reals here; the Java uses float.
   */
  datatype Mat4 = Mat4(c0: Vec4, c1: Vec4, c2: Vec4, c3: Vec4)

  function Dot4(a: Vec4, b: Vec4): real {
    a.x * b.x + a.y * b.y + a.z * b.z + a.w * b.w
  }

  /** The dot product of the x, y, z parts, as in "Ri dot T". */
  function Dot3(a: Vec4, b: Vec4): real {
    a.x * b.x + a.y * b.y + a.z * b.z
  }

  function Row(m: Mat4, r: nat): Vec4
    requires r < 4
  {
    if r == 0 then Vec4(m.c0.x, m.c1.x, m.c2.x, m.c3.x)
    else if r == 1 then Vec4(m.c0.y, m.c1.y, m.c2.y, m.c3.y)
    else if r == 2 then Vec4(m.c0.z, m.c1.z, m.c2.z, m.c3.z)
    else Vec4(m.c0.w, m.c1.w, m.c2.w, m.c3.w)
  }

  function Transpose(m: Mat4): Mat4 {
    Mat4(Row(m, 0), Row(m, 1), Row(m, 2), Row(m, 3))
  }

  /** The matrix-vector product a * v. */
  function Apply(a: Mat4, v: Vec4): Vec4 {
    Vec4(Dot4(Row(a, 0), v), Dot4(Row(a, 1), v), Dot4(Row(a, 2), v), Dot4(Row(a, 3), v))
  }

  /** The matrix product a * b, column by column. */
  function Mul(a: Mat4, b: Mat4): Mat4 {
    Mat4(Apply(a, b.c0), Apply(a, b.c1), Apply(a, b.c2), Apply(a, b.c3))
  }

  /** diag(k, k, k, 1): k on x, y and z, identity on the homogeneous coordinate. */
  function ScaledIdentity(k: real): Mat4 {
    Mat4(Vec4(k, 0.0, 0.0, 0.0), Vec4(0.0, k, 0.0, 0.0),
         Vec4(0.0, 0.0, k, 0.0), Vec4(0.0, 0.0, 0.0, 1.0))
  }

  const Identity: Mat4 := ScaledIdentity(1.0)

  /** Entry e of the 16 column-major floats: row e % 4 of column e / 4. */
  function Entry(m: Mat4, e: nat): real
    requires e < 16
  {
    if e < 8 then
      if e < 4 then Component(m.c0, e) else Component(m.c1, e - 4)
    else
      if e < 12 then Component(m.c2, e - 8) else Component(m.c3, e - 12)
  }

  /** Component r of a column: x, y, z, w for r = 0, 1, 2, 3. */
  function Component(v: Vec4, r: nat): real
    requires r < 4
  {
    if r < 2 then (if r == 0 then v.x else v.y) else (if r == 2 then v.z else v.w)
  }

  /** The 16 floats of a matrix, column-major, as the Java stores it. */
  function Entries(m: Mat4): (s: seq<real>)
    ensures |s| == 16
  {
    seq(16, e requires 0 <= e < 16 => Entry(m, e))
  }

  /** The matrix held by 16 column-major floats. */
  function FromEntries(s: seq<real>): Mat4
    requires |s| == 16
  {
    Mat4(Vec4(s[0], s[1], s[2], s[3]), Vec4(s[4], s[5], s[6], s[7]),
         Vec4(s[8], s[9], s[10], s[11]), Vec4(s[12], s[13], s[14], s[15]))
  }

  /** Reading 16 floats as a matrix and writing it back loses nothing, both ways. */
  lemma {:induction false} EntriesRoundTrip(s: seq<real>, m: Mat4)
    requires |s| == 16
    ensures Entries(FromEntries(s)) == s
    ensures FromEntries(Entries(m)) == m
  {
  }

  /**
   * What invTransposeM computes: the identity, overwritten with the
   * upper-left 3x3 of m (not transposed) and, in the bottom row, -(Ri . T)
   * for each axis Ri. Column 3 stays (0, 0, 0, 1).
   */
  function InvTransposed(m: Mat4): (r: Mat4)
    ensures r.c3 == Vec4(0.0, 0.0, 0.0, 1.0)
    ensures forall v :: Dot3(r.c0, v) == Dot3(m.c0, v) && Dot3(r.c1, v) == Dot3(m.c1, v) && Dot3(r.c2, v) == Dot3(m.c2, v)
    ensures r.c0.w + Dot3(m.c0, m.c3) == 0.0 && r.c1.w + Dot3(m.c1, m.c3) == 0.0 && r.c2.w + Dot3(m.c2, m.c3) == 0.0
  {
    Mat4(Vec4(m.c0.x, m.c0.y, m.c0.z, -Dot3(m.c0, m.c3)),
         Vec4(m.c1.x, m.c1.y, m.c1.z, -Dot3(m.c1, m.c3)),
         Vec4(m.c2.x, m.c2.y, m.c2.z, -Dot3(m.c2, m.c3)),
         Vec4(0.0, 0.0, 0.0, 1.0))
  }

  /**
   * The result entry by entry, in terms of the 16 src floats: entries
   * 0-2, 4-6 and 8-10 are copied, 3, 7 and 11 are -(Ri . T) with
   * T = s[12..15], 12-14 are 0 and 15 is 1.
   */
  lemma {:induction false} InvTransposedEntries(s: seq<real>)
    requires |s| == 16
    ensures var d := Entries(InvTransposed(FromEntries(s)));
      d[0] == s[0] && d[1] == s[1] && d[2] == s[2] &&
      d[4] == s[4] && d[5] == s[5] && d[6] == s[6] &&
      d[8] == s[8] && d[9] == s[9] && d[10] == s[10] &&
      d[3] == -(s[0] * s[12] + s[1] * s[13] + s[2] * s[14]) &&
      d[7] == -(s[4] * s[12] + s[5] * s[13] + s[6] * s[14]) &&
      d[11] == -(s[8] * s[12] + s[9] * s[13] + s[10] * s[14]) &&
      d[12] == 0.0 && d[13] == 0.0 && d[14] == 0.0 && d[15] == 1.0
  {
  }

  /** Bottom row (0, 0, 0, 1): an affine transform with no projective part. */
  predicate Affine(m: Mat4) {
    m.c0.w == 0.0 && m.c1.w == 0.0 && m.c2.w == 0.0 && m.c3.w == 1.0
  }

  /**
   * The axes R0, R1, R2 are mutually orthogonal and each has squared length
   * k: a rotation (k == 1), or a rotation with uniform scale sqrt(k).
   */
  predicate OrthogonalAxes(m: Mat4, k: real) {
    Dot3(m.c0, m.c0) == k && Dot3(m.c1, m.c1) == k && Dot3(m.c2, m.c2) == k &&
    Dot3(m.c0, m.c1) == 0.0 && Dot3(m.c0, m.c2) == 0.0 && Dot3(m.c1, m.c2) == 0.0
  }

  /**
   * The Gram matrix of the axes with the homogeneous coordinate kept:
   * entry (r, c) is Rr . Rc for r, c < 3, entry (3, 3) is 1, the rest 0.
   */
  function Gram(m: Mat4): Mat4 {
    Mat4(Vec4(Dot3(m.c0, m.c0), Dot3(m.c1, m.c0), Dot3(m.c2, m.c0), 0.0),
         Vec4(Dot3(m.c0, m.c1), Dot3(m.c1, m.c1), Dot3(m.c2, m.c1), 0.0),
         Vec4(Dot3(m.c0, m.c2), Dot3(m.c1, m.c2), Dot3(m.c2, m.c2), 0.0),
         Vec4(0.0, 0.0, 0.0, 1.0))
  }

  /**
   * The transpose of invTransposeM's result maps a direction v (w == 0) to
   * its dot products with the three axes, whatever m is.
   */
  lemma {:induction false} DirectionColumn(m: Mat4, v: Vec4)
    requires v.w == 0.0
    ensures Apply(Transpose(InvTransposed(m)), v) == Vec4(Dot3(m.c0, v), Dot3(m.c1, v), Dot3(m.c2, v), 0.0)
  {
  }

  /**
   * The transpose of invTransposeM's result maps m's own translation column,
   * when its w is 1, to the origin (0, 0, 0, 1): Ri . T - Ri . T == 0.
   */
  lemma {:induction false} TranslationColumn(m: Mat4)
    requires m.c3.w == 1.0
    ensures Apply(Transpose(InvTransposed(m)), m.c3) == Vec4(0.0, 0.0, 0.0, 1.0)
  {
  }

  /**
   * For any affine m, the transpose of invTransposeM's result times m is the
   * Gram matrix of m's axes: the translation cancels, whatever the axes are.
   */
  lemma {:induction false} TranslationCancels(m: Mat4)
    requires Affine(m)
    ensures Mul(Transpose(InvTransposed(m)), m) == Gram(m)
  {
    DirectionColumn(m, m.c0);
    DirectionColumn(m, m.c1);
    DirectionColumn(m, m.c2);
    TranslationColumn(m);
  }

  /**
   * For an affine m whose axes are orthogonal with squared length k, the
   * transpose of invTransposeM's result times m is diag(k, k, k, 1). This is
   * the case at the renderer's one call, where the model-view matrix is a
   * rotation scaled by 0.5 (k == 0.25) followed by translations.
   */
  lemma {:induction false} ScaledInverse(m: Mat4, k: real)
    requires Affine(m) && OrthogonalAxes(m, k)
    ensures Mul(Transpose(InvTransposed(m)), m) == ScaledIdentity(k)
  {
    TranslationCancels(m);
  }

  /**
   * The doc comment's claim: when the upper-left 3x3 of m is orthonormal and
   * its bottom row is (0, 0, 0, 1), the transpose of invTransposeM's result
   * is the inverse of m, so the result is the inverse transpose of m.
   */
  lemma {:induction false} InverseTranspose(m: Mat4)
    requires Affine(m) && OrthogonalAxes(m, 1.0)
    ensures Mul(Transpose(InvTransposed(m)), m) == Identity
  {
    ScaledInverse(m, 1.0);
  }

  /** android.opengl.Matrix.setIdentityM: the 16 entries from smOffset become the identity. */
  method SetIdentityM(sm: array<real>, smOffset: nat)
    requires smOffset + 16 <= sm.Length
    modifies sm
    ensures forall e :: 0 <= e < sm.Length ==>
      sm[e] == if smOffset <= e < smOffset + 16 then Entry(Identity, e - smOffset) else old(sm[e])
  {
    for i := 0 to 16
      invariant forall e :: 0 <= e < sm.Length ==>
        sm[e] == if smOffset <= e < smOffset + i then Entry(Identity, e - smOffset) else old(sm[e])
    {
      sm[smOffset + i] := Entry(Identity, i);
    }
  }

  /**
   * invTransposeM(dst, dstOffset, src, srcOffset): the 16 entries of dst
   * from dstOffset become those of InvTransposed of the matrix held by the
   * 16 entries of src from srcOffset; every other entry of dst stays as it
   * was, and src is not written. Since dst and src are different arrays,
   * src reads the same before and after every write to dst, so its 16
   * entries are read once up front.
   */
  method InvTransposeM(dst: array<real>, dstOffset: nat, src: array<real>, srcOffset: nat)
    requires dstOffset + 16 <= dst.Length && srcOffset + 16 <= src.Length
    requires dst != src
    modifies dst
    ensures forall e :: 0 <= e < dst.Length ==>
      dst[e] == if dstOffset <= e < dstOffset + 16
                then Entry(InvTransposed(FromEntries(old(src[srcOffset..srcOffset + 16]))), e - dstOffset)
                else old(dst[e])
  {
    var s := src[srcOffset..srcOffset + 16];
    SetIdentityM(dst, dstOffset);
    CopyUpperLeft(dst, dstOffset, s);
    WriteBottomRow(dst, dstOffset, s);

    ghost var m := InvTransposed(FromEntries(s));
    assert dst[dstOffset + 0] == Entry(m, 0) && dst[dstOffset + 1] == Entry(m, 1) &&
           dst[dstOffset + 2] == Entry(m, 2) && dst[dstOffset + 3] == Entry(m, 3) &&
           dst[dstOffset + 4] == Entry(m, 4) && dst[dstOffset + 5] == Entry(m, 5) &&
           dst[dstOffset + 6] == Entry(m, 6) && dst[dstOffset + 7] == Entry(m, 7);
    assert dst[dstOffset + 8] == Entry(m, 8) && dst[dstOffset + 9] == Entry(m, 9) &&
           dst[dstOffset + 10] == Entry(m, 10) && dst[dstOffset + 11] == Entry(m, 11) &&
           dst[dstOffset + 12] == Entry(m, 12) && dst[dstOffset + 13] == Entry(m, 13) &&
           dst[dstOffset + 14] == Entry(m, 14) && dst[dstOffset + 15] == Entry(m, 15);
    forall e | 0 <= e < dst.Length
      ensures dst[e] == if dstOffset <= e < dstOffset + 16 then Entry(m, e - dstOffset) else old(dst[e])
    {
      if dstOffset <= e < dstOffset + 16 {
        var i := e - dstOffset;
        assert i == 0 || i == 1 || i == 2 || i == 3 || i == 4 || i == 5 || i == 6 || i == 7 ||
               i == 8 || i == 9 || i == 10 || i == 11 || i == 12 || i == 13 || i == 14 || i == 15;
      }
    }
  }

  /** The first block of invTransposeM: copy the upper-left 3x3 of s into dst. */
  method CopyUpperLeft(dst: array<real>, dstOffset: nat, s: seq<real>)
    requires dstOffset + 16 <= dst.Length && |s| == 16
    modifies dst
    ensures forall e :: 0 <= e < dst.Length ==>
      dst[e] == if dstOffset <= e < dstOffset + 11 && e != dstOffset + 3 && e != dstOffset + 7
                then s[e - dstOffset] else old(dst[e])
  {
    dst[dstOffset + 0] := s[0];
    dst[dstOffset + 1] := s[1];
    dst[dstOffset + 2] := s[2];
    dst[dstOffset + 4] := s[4];
    dst[dstOffset + 5] := s[5];
    dst[dstOffset + 6] := s[6];
    dst[dstOffset + 8] := s[8];
    dst[dstOffset + 9] := s[9];
    dst[dstOffset + 10] := s[10];
  }

  /** The second block of invTransposeM: -(Ri . T) into entries 3, 7 and 11. */
  method WriteBottomRow(dst: array<real>, dstOffset: nat, s: seq<real>)
    requires dstOffset + 16 <= dst.Length && |s| == 16
    modifies dst
    ensures dst[dstOffset + 3] == -(s[0] * s[12] + s[1] * s[13] + s[2] * s[14])
    ensures dst[dstOffset + 7] == -(s[4] * s[12] + s[5] * s[13] + s[6] * s[14])
    ensures dst[dstOffset + 11] == -(s[8] * s[12] + s[9] * s[13] + s[10] * s[14])
    ensures forall e :: 0 <= e < dst.Length && e != dstOffset + 3 && e != dstOffset + 7 && e != dstOffset + 11 ==>
      dst[e] == old(dst[e])
  {
    dst[dstOffset + 3] := -(s[0] * s[12] + s[1] * s[13] + s[2] * s[14]);
    dst[dstOffset + 7] := -(s[4] * s[12] + s[5] * s[13] + s[6] * s[14]);
    dst[dstOffset + 11] := -(s[8] * s[12] + s[9] * s[13] + s[10] * s[14]);
  }
}
