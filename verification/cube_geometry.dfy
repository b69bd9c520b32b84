// The cube geometry built by the FlipCubeRenderer constructor: indexed
// vertex, normal and face tables, expanded by nested loops into interleaved
// byte buffers of 6-byte records (vertex xyz, then face normal xyz).

module CubeGeometry {
  import opened Buffers

  datatype Vec3 = Vec3(x: Byte, y: Byte, z: Byte) {
    /** The three bytes one `put` of this vector writes. */
    function Bytes(): seq<Byte> {
      [x, y, z]
    }
  }

  /**
   * One row of CUBELINES or CUBEFILLED: the vertex indices of a face and the
   * index of its normal (the Java keeps the latter as a one-element array).
   */
  datatype Face = Face(indices: seq<int>, normal: int)

  const CubeVertices: seq<Vec3> :=
    [Vec3(-1, 1, 1), Vec3(-1, -1, 1), Vec3(1, 1, 1), Vec3(1, -1, 1),
     Vec3(-1, 1, -1), Vec3(-1, -1, -1), Vec3(1, 1, -1), Vec3(1, -1, -1)]

  const CubeNormals: seq<Vec3> :=
    [Vec3(0, 0, 1), Vec3(0, 0, -1), Vec3(-1, 0, 0),
     Vec3(1, 0, 0), Vec3(0, 1, 0), Vec3(0, -1, 0)]

  /** Per face, four line segments as consecutive index pairs. */
  const CubeLines: seq<Face> :=
    [Face([0, 1, 1, 3, 3, 2, 2, 0], 0),
     Face([4, 5, 5, 7, 7, 6, 6, 4], 1),
     Face([0, 4, 4, 5, 5, 1, 1, 0], 2),
     Face([2, 3, 3, 7, 7, 6, 6, 2], 3),
     Face([0, 2, 2, 6, 6, 4, 4, 0], 4),
     Face([1, 3, 3, 7, 7, 5, 5, 1], 5)]

  /** Per face, two triangles as consecutive index triples. */
  const CubeFilled: seq<Face> :=
    [Face([0, 1, 2, 1, 3, 2], 0),
     Face([6, 7, 4, 7, 5, 4], 1),
     Face([0, 4, 1, 4, 5, 1], 2),
     Face([3, 7, 2, 7, 6, 2], 3),
     Face([4, 0, 6, 0, 2, 6], 4),
     Face([1, 5, 3, 5, 7, 3], 5)]

  /** Bytes per record: the stride of both attribute pointers. */
  const RecordSize := 6
  /** Where the normal starts inside a record: the offset of the normal pointer. */
  const NormalOffset := 3

  /** Capacities passed to allocateDirect and vertex counts passed to glDrawArrays. */
  const LinesCapacity := 6 * 8 * 6
  const FilledCapacity := 6 * 6 * 6
  const LinesDrawCount := 8 * 6
  const FilledDrawCount := 6 * 6

  // ---------------------------------------------------------------------------
  // Expansion of an indexed table into records

  /** Every index of the face selects an entry of its table (no out-of-bounds read). */
  predicate ValidFace(f: Face) {
    (forall j :: 0 <= j < |f.indices| ==> 0 <= f.indices[j] < |CubeVertices|) &&
    0 <= f.normal < |CubeNormals|
  }

  predicate ValidTable(table: seq<Face>) {
    forall i :: 0 <= i < |table| ==> ValidFace(table[i])
  }

  /** Every face lists exactly n indices. */
  predicate Uniform(table: seq<Face>, n: nat) {
    forall i :: 0 <= i < |table| ==> |table[i].indices| == n
  }

  /** What one pass of the inner loop body emits: a vertex index and its face's normal index. */
  datatype Corner = Corner(vertex: int, normal: int)

  predicate ValidCorner(c: Corner) {
    0 <= c.vertex < |CubeVertices| && 0 <= c.normal < |CubeNormals|
  }

  predicate ValidCorners(cs: seq<Corner>) {
    forall k :: 0 <= k < |cs| ==> ValidCorner(cs[k])
  }

  /** The six bytes put for a corner: its vertex, then the normal. */
  function RecordBytes(c: Corner): seq<Byte>
    requires ValidCorner(c)
  {
    CubeVertices[c.vertex].Bytes() + CubeNormals[c.normal].Bytes()
  }

  /** The record for index j of face f: its vertex, then the face's normal. */
  function Record(f: Face, j: nat): seq<Byte>
    requires ValidFace(f) && j < |f.indices|
  {
    RecordBytes(Corner(f.indices[j], f.normal))
  }

  /** The corners of face f, in the inner loop's order. */
  function FaceCorners(f: Face): (r: seq<Corner>)
    ensures |r| == |f.indices|
  {
    seq(|f.indices|, j requires 0 <= j < |f.indices| => Corner(f.indices[j], f.normal))
  }

  /** The corners of the first i faces of a table, in the nested loops' order. */
  function Corners(table: seq<Face>, i: nat): seq<Corner>
    requires i <= |table|
  {
    if i == 0 then [] else Corners(table, i - 1) + FaceCorners(table[i - 1])
  }

  /** Records laid end to end, RecordSize bytes each. */
  function Flatten(cs: seq<Corner>): (r: seq<Byte>)
    requires ValidCorners(cs)
    ensures |r| == RecordSize * |cs|
  {
    seq(RecordSize * |cs|, k requires 0 <= k < RecordSize * |cs| =>
      RecordBytes(cs[k / RecordSize])[k % RecordSize])
  }

  /** The bytes the nested loops write for a whole table. */
  function Expanded(table: seq<Face>): (r: seq<Byte>)
    requires ValidTable(table)
    ensures |r| == RecordSize * |Corners(table, |table|)|
  {
    CornersValid(table, |table|);
    Flatten(Corners(table, |table|))
  }

  /** Every corner of a well-formed table indexes both lookup tables in range. */
  lemma {:induction false} CornersValid(table: seq<Face>, i: nat)
    requires ValidTable(table) && i <= |table|
    ensures ValidCorners(Corners(table, i))
  {
    if i > 0 {
      CornersValid(table, i - 1);
      var f := table[i - 1];
      assert ValidFace(f);
      var cs := Corners(table, i);
      forall k | 0 <= k < |cs|
        ensures ValidCorner(cs[k])
      {
        var prior := Corners(table, i - 1);
        if k >= |prior| {
          assert cs[k] == FaceCorners(f)[k - |prior|];
        }
      }
    }
  }

  /**
   * Index j of face i is emitted as corner number |Corners(table, i)| + j:
   * every earlier face contributes all of its corners first.
   */
  lemma {:induction false} CornerAt(table: seq<Face>, i: nat, j: nat, m: nat)
    requires i < m <= |table| && j < |table[i].indices|
    ensures |Corners(table, i)| + j < |Corners(table, m)|
    ensures Corners(table, m)[|Corners(table, i)| + j] == Corner(table[i].indices[j], table[i].normal)
  {
    if m > i + 1 {
      CornerAt(table, i, j, m - 1);
    }
  }

  /** Corner c of a flattened sequence occupies bytes RecordSize * c onwards. */
  lemma {:induction false} RecordInFlatten(cs: seq<Corner>, c: nat)
    requires ValidCorners(cs) && c < |cs|
    ensures RecordSize * c + RecordSize <= |Flatten(cs)|
    ensures Flatten(cs)[RecordSize * c..RecordSize * c + RecordSize] == RecordBytes(cs[c])
  {
    var r := Flatten(cs);
    forall o | 0 <= o < RecordSize
      ensures r[RecordSize * c + o] == RecordBytes(cs[c])[o]
    {
      assert (RecordSize * c + o) / RecordSize == c;
      assert (RecordSize * c + o) % RecordSize == o;
    }
  }

  /**
   * Record j of face i starts right after the records of the faces before
   * it.
   */
  lemma {:induction false} RecordAtOffset(table: seq<Face>, i: nat, j: nat)
    requires ValidTable(table) && i < |table| && j < |table[i].indices|
    ensures ValidFace(table[i])
    ensures RecordSize * (|Corners(table, i)| + j) + RecordSize <= |Expanded(table)|
    ensures Expanded(table)[RecordSize * (|Corners(table, i)| + j)..RecordSize * (|Corners(table, i)| + j) + RecordSize]
            == Record(table[i], j)
  {
    var all := Corners(table, |table|);
    var c := |Corners(table, i)| + j;
    CornersValid(table, |table|);
    CornerAt(table, i, j, |table|);
    assert all[c] == Corner(table[i].indices[j], table[i].normal);
    RecordInFlatten(all, c);
    assert Expanded(table) == Flatten(all);
  }

  /** A record's two halves, as the two attribute pointers read them. */
  lemma {:induction false} RecordHalves(s: seq<Byte>, k: nat, f: Face, j: nat)
    requires ValidFace(f) && j < |f.indices|
    requires k + RecordSize <= |s| && s[k..k + RecordSize] == Record(f, j)
    ensures s[k..k + NormalOffset] == CubeVertices[f.indices[j]].Bytes()
    ensures s[k + NormalOffset..k + RecordSize] == CubeNormals[f.normal].Bytes()
  {
    assert s[k..k + NormalOffset] == s[k..k + RecordSize][..NormalOffset];
    assert s[k + NormalOffset..k + RecordSize] == s[k..k + RecordSize][NormalOffset..];
  }

  /** In a table whose faces all list n indices, face i starts at corner i * n. */
  lemma {:induction false} CornerCountUniform(table: seq<Face>, n: nat, i: nat)
    requires Uniform(table, n) && i <= |table|
    ensures |Corners(table, i)| == i * n
  {
    if i > 0 {
      CornerCountUniform(table, n, i - 1);
    }
  }

  /**
   * Record layout: in the expansion of a table whose faces all list n
   * indices, record i * n + j holds the vertex of index j of face i in bytes
   * 0..2 and the normal of face i in bytes 3..5.
   */
  lemma {:induction false} RecordAt(table: seq<Face>, n: nat, i: nat, j: nat)
    requires ValidTable(table) && Uniform(table, n) && i < |table| && j < n
    ensures ValidFace(table[i]) && j < |table[i].indices|
    ensures var k := RecordSize * (i * n + j);
      k + RecordSize <= |Expanded(table)| &&
      Expanded(table)[k..k + NormalOffset] == CubeVertices[table[i].indices[j]].Bytes() &&
      Expanded(table)[k + NormalOffset..k + RecordSize] == CubeNormals[table[i].normal].Bytes()
  {
    RecordAtOffset(table, i, j);
    CornerCountUniform(table, n, i);
    RecordHalves(Expanded(table), RecordSize * (i * n + j), table[i], j);
  }

  // ---------------------------------------------------------------------------
  // The constructor's nested loops

  /**
   * The loops of the constructor that fill a buffer from a table: for each
   * face, for each index, put the vertex then the face normal. The bytes
   * written are always a prefix of Expanded(table); the fill completes
   * exactly when the expansion fits, otherwise the put that would overflow
   * stops it (`ok == false`, the BufferOverflowException).
   */
  method FillBuffer(buf: ByteBuffer, table: seq<Face>) returns (ok: bool)
    requires buf.Valid() && ValidTable(table)
    modifies buf, buf.data
    ensures buf.Valid()
    ensures ok <==> old(buf.position) + |Expanded(table)| <= buf.data.Length
    ensures ok ==> buf.position == old(buf.position) + |Expanded(table)|
    ensures Written(buf.data[..], old(buf.data[..]), old(buf.position), buf.position, Expanded(table))
  {
    ghost var start := buf.position;
    ghost var before := buf.data[..];
    ghost var whole := Expanded(table);
    var i := 0;
    while i < |table|
      invariant 0 <= i <= |table| && buf.Valid()
      invariant buf.position == start + RecordSize * |Corners(table, i)|
      invariant Written(buf.data[..], before, start, buf.position, whole)
    {
      ok := FillFace(buf, table, i, start, before);
      if !ok {
        return;
      }
      i := i + 1;
    }
    ok := true;
  }

  /** The inner loop of FillBuffer: the records of face i, in index order. */
  method FillFace(buf: ByteBuffer, table: seq<Face>, i: nat, ghost start: nat, ghost before: seq<Byte>)
      returns (ok: bool)
    requires buf.Valid() && ValidTable(table) && i < |table|
    requires buf.position == start + RecordSize * |Corners(table, i)|
    requires Written(buf.data[..], before, start, buf.position, Expanded(table))
    modifies buf, buf.data
    ensures buf.Valid() && Written(buf.data[..], before, start, buf.position, Expanded(table))
    ensures ok ==> buf.position == start + RecordSize * |Corners(table, i + 1)|
    ensures !ok ==> start + |Expanded(table)| > buf.data.Length
  {
    ghost var whole := Expanded(table);
    ghost var base := |Corners(table, i)|;
    var face := table[i];
    var j := 0;
    while j < |face.indices|
      invariant 0 <= j <= |face.indices| && buf.Valid()
      invariant buf.position == start + RecordSize * (base + j)
      invariant Written(buf.data[..], before, start, buf.position, whole)
    {
      RecordAtOffset(table, i, j);
      ok := PutRecord(buf, face, j, start, before, whole);
      if !ok {
        return;
      }
      j := j + 1;
    }
    ok := true;
  }

  /**
   * The body of the inner loop: put the vertex of index j of the face, then
   * the face normal. It completes when the whole record fits; otherwise the
   * put that overflows writes nothing.
   */
  method PutRecord(buf: ByteBuffer, face: Face, j: nat,
                   ghost start: nat, ghost before: seq<Byte>, ghost whole: seq<Byte>)
      returns (ok: bool)
    requires buf.Valid() && ValidFace(face) && j < |face.indices|
    requires Written(buf.data[..], before, start, buf.position, whole)
    requires buf.position - start + RecordSize <= |whole|
    requires whole[buf.position - start..buf.position - start + RecordSize] == Record(face, j)
    modifies buf, buf.data
    ensures buf.Valid() && Written(buf.data[..], before, start, buf.position, whole)
    ensures ok <==> old(buf.position) + RecordSize <= buf.data.Length
    ensures ok ==> buf.position == old(buf.position) + RecordSize
    ensures !ok ==> start + |whole| > buf.data.Length
  {
    ghost var k := buf.position - start;
    RecordHalves(whole, k, face, j);
    ghost var d := buf.data[..];
    var vertex := CubeVertices[face.indices[j]].Bytes();
    ok := buf.Put(vertex);
    if !ok {
      return;
    }
    WrittenAfterPut(d, buf.data[..], before, start, start + k, whole, vertex);
    d := buf.data[..];
    var normal := CubeNormals[face.normal].Bytes();
    ok := buf.Put(normal);
    if !ok {
      return;
    }
    WrittenAfterPut(d, buf.data[..], before, start, start + k + NormalOffset, whole, normal);
  }

  /**
   * Loop invariant of FillBuffer: the bytes between the starting position
   * and the current one are a prefix of the expansion; the rest is as it was.
   */
  ghost predicate Written(d: seq<Byte>, before: seq<Byte>, start: nat, pos: nat, whole: seq<Byte>) {
    start <= pos <= |d| == |before| && pos - start <= |whole| &&
    d[..start] == before[..start] &&
    d[start..pos] == whole[..pos - start] &&
    d[pos..] == before[pos..]
  }

  lemma {:induction false} WrittenAfterPut(d: seq<Byte>, d': seq<Byte>, before: seq<Byte>, start: nat, pos: nat,
                        whole: seq<Byte>, src: seq<Byte>)
    requires Written(d, before, start, pos, whole)
    requires pos + |src| <= |d| && d' == d[..pos] + src + d[pos + |src|..]
    requires pos - start + |src| <= |whole| && whole[pos - start..pos - start + |src|] == src
    ensures Written(d', before, start, pos + |src|, whole)
  {
    assert d'[..start] == d[..start];
    assert d'[pos + |src|..] == d[pos + |src|..] == before[pos + |src|..];
    assert d'[start..pos + |src|] == d[start..pos] + src;
    assert whole[..pos - start + |src|] == whole[..pos - start] + whole[pos - start..pos - start + |src|];
  }

  // ---------------------------------------------------------------------------
  // Properties of the cube tables

  /**
   * Buffer sizes: the lines expansion is 48 records, exactly the capacity
   * allocated for it and the vertex count drawn as GL_LINES; the filled
   * expansion is 36 records, its capacity and the GL_TRIANGLES count.
   */
  lemma ExpansionSizes()
    ensures ValidTable(CubeLines) && ValidTable(CubeFilled)
    ensures |Expanded(CubeLines)| == LinesCapacity == RecordSize * LinesDrawCount
    ensures |Expanded(CubeFilled)| == FilledCapacity == RecordSize * FilledDrawCount
  {
    LinesTraceFaceOutlines();
    FilledTrianglesWindOutward();
    CornerCountUniform(CubeLines, 8, 6);
    CornerCountUniform(CubeFilled, 6, 6);
  }

  /**
   * Record i * 8 + j of the lines buffer, as read through the stride-6
   * position pointer at offset 0 and normal pointer at offset 3: the vertex
   * of index j of face i, then the normal of face i.
   */
  lemma {:induction false} LinesRecordLayout(i: nat, j: nat)
    requires i < |CubeLines| && j < 8
    ensures ValidTable(CubeLines) && ValidFace(CubeLines[i]) && j < |CubeLines[i].indices|
    ensures var k := RecordSize * (i * 8 + j);
      k + RecordSize <= |Expanded(CubeLines)| &&
      Expanded(CubeLines)[k..k + NormalOffset] == CubeVertices[CubeLines[i].indices[j]].Bytes() &&
      Expanded(CubeLines)[k + NormalOffset..k + RecordSize] == CubeNormals[CubeLines[i].normal].Bytes()
  {
    LinesTraceFaceOutlines();
    RecordAt(CubeLines, 8, i, j);
  }

  /** Record i * 6 + j of the filled buffer, as read through the same two pointers. */
  lemma {:induction false} FilledRecordLayout(i: nat, j: nat)
    requires i < |CubeFilled| && j < 6
    ensures ValidTable(CubeFilled) && ValidFace(CubeFilled[i]) && j < |CubeFilled[i].indices|
    ensures var k := RecordSize * (i * 6 + j);
      k + RecordSize <= |Expanded(CubeFilled)| &&
      Expanded(CubeFilled)[k..k + NormalOffset] == CubeVertices[CubeFilled[i].indices[j]].Bytes() &&
      Expanded(CubeFilled)[k + NormalOffset..k + RecordSize] == CubeNormals[CubeFilled[i].normal].Bytes()
  {
    FilledTrianglesWindOutward();
    RecordAt(CubeFilled, 6, i, j);
  }

  function Dot(a: Vec3, b: Vec3): int {
    a.x * b.x + a.y * b.y + a.z * b.z
  }

  /** Corner v lies in the plane of face normal n: dot(vertex, normal) == 1. */
  predicate OnFace(v: int, n: int) {
    0 <= v < |CubeVertices| && 0 <= n < |CubeNormals| &&
    Dot(CubeVertices[v], CubeNormals[n]) == 1
  }

  /** Vertex j of face f lies on the face whose normal it is emitted with. */
  predicate OnItsFace(f: Face, j: nat)
    requires j < |f.indices|
  {
    OnFace(f.indices[j], f.normal)
  }

  /** The two vertices differ in exactly one coordinate: they span a cube edge. */
  predicate IsCubeEdge(a: Vec3, b: Vec3) {
    (a.x != b.x && a.y == b.y && a.z == b.z) ||
    (a.x == b.x && a.y != b.y && a.z == b.z) ||
    (a.x == b.x && a.y == b.y && a.z != b.z)
  }

  /** Corners i and j are joined by one of the cube's twelve edges. */
  predicate CubeEdge(i: int, j: int) {
    0 <= i < |CubeVertices| && 0 <= j < |CubeVertices| &&
    IsCubeEdge(CubeVertices[i], CubeVertices[j])
  }

  /**
   * Segment p of a lines face: indices 2p and 2p+1 join along a cube edge,
   * and the segment ends where the next one (cyclically) starts.
   */
  predicate LinkedEdge(f: Face, p: nat)
    requires |f.indices| == 8 && p < 4
  {
    CubeEdge(f.indices[2 * p], f.indices[2 * p + 1]) &&
    f.indices[2 * p + 1] == f.indices[(2 * p + 2) % 8]
  }

  /** The four segments of a lines face start at four distinct corners. */
  predicate DistinctCorners(f: Face)
    requires |f.indices| == 8
  {
    var s := f.indices;
    s[0] != s[2] && s[0] != s[4] && s[0] != s[6] &&
    s[2] != s[4] && s[2] != s[6] && s[4] != s[6]
  }

  /**
   * Corners i, j, k wind counter-clockwise seen from outside face n:
   * (vj - vi) x (vk - vi) is the face normal scaled by 4, twice the area of
   * half a face of the 2-wide cube.
   */
  predicate TurnsOutward(i: int, j: int, k: int, n: int) {
    0 <= i < |CubeVertices| && 0 <= j < |CubeVertices| && 0 <= k < |CubeVertices| &&
    0 <= n < |CubeNormals| &&
    var v0, v1, v2, nv := CubeVertices[i], CubeVertices[j], CubeVertices[k], CubeNormals[n];
    var ux, uy, uz := v1.x - v0.x, v1.y - v0.y, v1.z - v0.z;
    var wx, wy, wz := v2.x - v0.x, v2.y - v0.y, v2.z - v0.z;
    uy * wz - uz * wy == 4 * nv.x &&
    uz * wx - ux * wz == 4 * nv.y &&
    ux * wy - uy * wx == 4 * nv.z
  }

  /** Triangle t of a filled face faces outward. */
  predicate WindsOutward(f: Face, t: nat)
    requires |f.indices| == 6 && t < 2
  {
    TurnsOutward(f.indices[3 * t], f.indices[3 * t + 1], f.indices[3 * t + 2], f.normal)
  }

  /**
   * A lines face that lists the closed path a-b-c-d-a along four cube edges
   * through four distinct corners of its own face is that face's outline.
   */
  lemma {:induction false} LinesSquare(f: Face, a: int, b: int, c: int, d: int)
    requires |f.indices| == 8
    requires f.indices[0] == a && f.indices[1] == b && f.indices[2] == b && f.indices[3] == c
    requires f.indices[4] == c && f.indices[5] == d && f.indices[6] == d && f.indices[7] == a
    requires a != b && a != c && a != d && b != c && b != d && c != d
    requires CubeEdge(a, b) && CubeEdge(b, c) && CubeEdge(c, d) && CubeEdge(d, a)
    requires OnFace(a, f.normal) && OnFace(b, f.normal) && OnFace(c, f.normal) && OnFace(d, f.normal)
    ensures ValidFace(f) && DistinctCorners(f)
    ensures forall p :: 0 <= p < 4 ==> LinkedEdge(f, p)
    ensures forall j :: 0 <= j < 8 ==> OnItsFace(f, j)
  {
    forall j | 0 <= j < 8
      ensures 0 <= f.indices[j] < |CubeVertices| && OnItsFace(f, j)
    {
      assert j == 0 || j == 1 || j == 2 || j == 3 || j == 4 || j == 5 || j == 6 || j == 7;
    }
    forall p | 0 <= p < 4
      ensures LinkedEdge(f, p)
    {
      assert p == 0 || p == 1 || p == 2 || p == 3;
    }
  }

  /**
   * A filled face that lists the triangles a-b-c and b-d-c, both turning
   * outward, over four corners of its own face.
   */
  lemma {:induction false} FilledSquare(f: Face, a: int, b: int, c: int, d: int)
    requires |f.indices| == 6
    requires f.indices[0] == a && f.indices[1] == b && f.indices[2] == c
    requires f.indices[3] == b && f.indices[4] == d && f.indices[5] == c
    requires TurnsOutward(a, b, c, f.normal) && TurnsOutward(b, d, c, f.normal)
    requires OnFace(a, f.normal) && OnFace(b, f.normal) && OnFace(c, f.normal) && OnFace(d, f.normal)
    ensures ValidFace(f)
    ensures forall t :: 0 <= t < 2 ==> WindsOutward(f, t)
    ensures forall j :: 0 <= j < 6 ==> OnItsFace(f, j)
  {
    forall j | 0 <= j < 6
      ensures 0 <= f.indices[j] < |CubeVertices| && OnItsFace(f, j)
    {
      assert j == 0 || j == 1 || j == 2 || j == 3 || j == 4 || j == 5;
    }
    assert ValidFace(f);
    forall t | 0 <= t < 2
      ensures WindsOutward(f, t)
    {
      if t == 0 {
        assert f.indices[0] == a && f.indices[1] == b && f.indices[2] == c;
      } else {
        assert t == 1 && f.indices[3] == b && f.indices[4] == d && f.indices[5] == c;
      }
    }
  }

  /**
   * CUBELINES: every face is well formed, lists eight indices, and traces
   * its own face's outline (a closed loop of four cube edges through four
   * distinct corners, every one of them on that face).
   */
  lemma LinesTraceFaceOutlines()
    ensures ValidTable(CubeLines) && Uniform(CubeLines, 8)
    ensures forall i :: 0 <= i < |CubeLines| ==> DistinctCorners(CubeLines[i])
    ensures forall i, p :: 0 <= i < |CubeLines| && 0 <= p < 4 ==> LinkedEdge(CubeLines[i], p)
    ensures forall i, j :: 0 <= i < |CubeLines| && 0 <= j < 8 ==> OnItsFace(CubeLines[i], j)
  {
    forall i | 0 <= i < |CubeLines|
      ensures ValidFace(CubeLines[i]) && |CubeLines[i].indices| == 8
      ensures DistinctCorners(CubeLines[i])
      ensures forall p :: 0 <= p < 4 ==> LinkedEdge(CubeLines[i], p)
      ensures forall j :: 0 <= j < 8 ==> OnItsFace(CubeLines[i], j)
    {
      if i == 0 {
        LinesSquare(CubeLines[0], 0, 1, 3, 2);
      } else if i == 1 {
        LinesSquare(CubeLines[1], 4, 5, 7, 6);
      } else if i == 2 {
        LinesSquare(CubeLines[2], 0, 4, 5, 1);
      } else if i == 3 {
        LinesSquare(CubeLines[3], 2, 3, 7, 6);
      } else if i == 4 {
        LinesSquare(CubeLines[4], 0, 2, 6, 4);
      } else {
        LinesSquare(CubeLines[5], 1, 3, 7, 5);
      }
    }
  }

  /**
   * CUBEFILLED: every face is well formed, lists six indices, all on its
   * own face, and both of its triangles face outward, as back-face culling
   * needs.
   */
  lemma FilledTrianglesWindOutward()
    ensures ValidTable(CubeFilled) && Uniform(CubeFilled, 6)
    ensures forall i, t :: 0 <= i < |CubeFilled| && 0 <= t < 2 ==> WindsOutward(CubeFilled[i], t)
    ensures forall i, j :: 0 <= i < |CubeFilled| && 0 <= j < 6 ==> OnItsFace(CubeFilled[i], j)
  {
    FilledSquare(CubeFilled[0], 0, 1, 2, 3);
    FilledSquare(CubeFilled[1], 6, 7, 4, 5);
    FilledSquare(CubeFilled[2], 0, 4, 1, 5);
    FilledSquare(CubeFilled[3], 3, 7, 2, 6);
    FilledSquare(CubeFilled[4], 4, 0, 6, 2);
    FilledSquare(CubeFilled[5], 1, 5, 3, 7);
    forall i | 0 <= i < |CubeFilled|
      ensures ValidFace(CubeFilled[i]) && |CubeFilled[i].indices| == 6
      ensures forall t :: 0 <= t < 2 ==> WindsOutward(CubeFilled[i], t)
      ensures forall j :: 0 <= j < 6 ==> OnItsFace(CubeFilled[i], j)
    {
      assert i == 0 || i == 1 || i == 2 || i == 3 || i == 4 || i == 5;
    }
  }
}
