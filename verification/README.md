# FlipCube renderer core in Dafny

FlipCube is an Android live wallpaper. It draws a rotating cube as a "page"
into one of two offscreen textures. It renders a new page on the first
frame after more than the current flip duration has passed since the last
page; each new page draws the next duration, between 200 and 500 ms. Every
frame shows the two newest pages, with a flip edge moving from one to the
other. This project models the three parts of `FlipCubeRenderer` that are
logic rather than OpenGL calls:

- **Cube geometry** (`cube_geometry.dfy`, module `CubeGeometry`, over the
  `ByteBuffer` of `byte_buffer.dfy`, module `Buffers`). The constructor's
  nested loops expand the face tables into direct byte buffers. Each record
  is 6 bytes: the vertex of one index, then its face normal.
  - `Expanded` is the specification of those bytes.
  - `FillBuffer` is the loop, proved against `Expanded`.
  - The remaining lemmas prove:
    - the sizes (288 and 216 bytes, 48 and 36 records drawn)
    - the stride-6 / offset-3 layout the vertex pointers read
    - that every vertex lies on the face its normal names
    - that the line segments of a face trace its outline as a closed loop
    - that the filled triangles wind outward
- **Normal matrix** (`normal_matrix.dfy`, module `NormalMatrix`).
  - `InvTransposeM` runs over `array<real>` as the Java does over
    `float[]`. It writes the identity, then copies the upper-left 3x3 and
    puts `-(Ri . T)` into the bottom row.
  - `InvTransposed` is the specification. The lemmas prove that for an
    affine matrix with orthonormal axes, the transpose of the result times
    the `src` matrix is the identity, i.e. the result is the inverse transpose.
  - For orthogonal axes of squared length `k` the product is
    diag(k, k, k, 1). The renderer's own matrix has a 0.5 scale, so k = 0.25.
- **Page flip** (`flip_timing.dfy`, module `FlipTiming`, and `renderer.dfy`,
  module `FlipCube`).
  - `Step` is `onDrawFrame`'s update of `mFlipTexture`, `mRenderTime` and
    `mFlipTime`. The uptime clock and the sine that sets the next duration
    are inputs.
  - The class `FlipCubeRenderer` holds the buffers and the flip fields. With a
    shader compiler, its `OnDrawFrame` is proved to take exactly one `Step`;
    without one, it is proved to change nothing. Its page renders are
    recorded as a ghost list of target textures.
  - The lemmas prove:
    - the sampler invariant (the newest page is under `sBottom`)
    - that consecutive page renders alternate between the two textures
    - that on a clock that does not go backwards, `uFlipPos = 1 - t` stays
      in [0, 1]

## Model

| member | source | states |
|---|---|---|
| Buffers.ByteBuffer.AllocateDirect | src/fi/harism/wallpaper/flipcube/FlipCubeRenderer.java:66 | allocateDirect(capacity): capacity zero bytes, position 0 |
| Buffers.ByteBuffer.Put | src/fi/harism/wallpaper/flipcube/FlipCubeRenderer.java:92-93 | relative bulk put: succeeds exactly when the bytes fit before the limit; then the bytes land at the position, the position advances by their count and nothing else changes; otherwise nothing changes (the BufferOverflowException) |
| Buffers.ByteBuffer.SetPosition | src/fi/harism/wallpaper/flipcube/FlipCubeRenderer.java:96 | position(n) sets the position to any n up to the limit |
| CubeGeometry.FillBuffer | src/fi/harism/wallpaper/flipcube/FlipCubeRenderer.java:89-96 | the nested put loops complete exactly when the expansion fits after the start position. The bytes written are always a prefix of `Expanded(table)`, bytes outside them are untouched, and on completion the position has advanced by the expansion's length |
| CubeGeometry.Expanded | src/fi/harism/wallpaper/flipcube/FlipCubeRenderer.java:89-95 | the bytes the nested loops put for a table: for each face in order and each of its indices, the vertex's 3 bytes then the face normal's 3 bytes, so 6 bytes per index |
| CubeGeometry.FillFace | src/fi/harism/wallpaper/flipcube/FlipCubeRenderer.java:91-94 | the inner loop appends face i's records, continuing the expansion prefix; when it stops early, the whole expansion cannot fit |
| CubeGeometry.PutRecord | src/fi/harism/wallpaper/flipcube/FlipCubeRenderer.java:92-93 | put vertex then normal: one more 6-byte record of the expansion, or an overflow when it does not fit |
| CubeGeometry.ExpansionSizes | src/fi/harism/wallpaper/flipcube/FlipCubeRenderer.java:89-106 | both tables are well-formed. The lines expansion is 288 bytes, equal to its capacity and to 6 * the 8*6 vertices drawn (line 358). The filled expansion is 216 bytes, equal to its capacity and to 6 * the 6*6 vertices drawn (line 381) |
| CubeGeometry.LinesRecordLayout | src/fi/harism/wallpaper/flipcube/FlipCubeRenderer.java:344-351 | record 8i+j of the lines buffer holds, at offset 0 with stride 6, the vertex of index j of face i, and at offset 3 the normal of face i |
| CubeGeometry.FilledRecordLayout | src/fi/harism/wallpaper/flipcube/FlipCubeRenderer.java:370-377 | the same for record 6i+j of the filled buffer |
| CubeGeometry.LinesTraceFaceOutlines | src/fi/harism/wallpaper/flipcube/FlipCubeRenderer.java:70-80 | every CUBELINES face has 8 indices in range and a normal in range. Its 4 segments follow cube edges, each starting where the previous one ended and closing the loop, through 4 distinct corners. Every corner has dot(vertex, normal) == 1 |
| CubeGeometry.FilledTrianglesWindOutward | src/fi/harism/wallpaper/flipcube/FlipCubeRenderer.java:70-86 | every CUBEFILLED face has 6 indices in range and a normal in range. Both of its triangles have cross product = 4 * the face normal, i.e. counter-clockwise from outside, as back-face culling needs. Every corner lies on the face |
| CubeGeometry.LinesSquare | src/fi/harism/wallpaper/flipcube/FlipCubeRenderer.java:75-80 | a face listing the path a-b-c-d-a along cube edges of its own face is a well-formed closed outline |
| CubeGeometry.FilledSquare | src/fi/harism/wallpaper/flipcube/FlipCubeRenderer.java:81-86 | a face listing triangles a-b-c and b-d-c, both outward, over corners of its face is well-formed and winds outward |
| CubeGeometry.RecordAt | src/fi/harism/wallpaper/flipcube/FlipCubeRenderer.java:90-95 | in a table of faces with n indices each, record i*n+j of the expansion is vertex j then the normal of face i |
| CubeGeometry.CornerCountUniform | src/fi/harism/wallpaper/flipcube/FlipCubeRenderer.java:90-91 | the first i faces of a uniform table contribute i*n records |
| NormalMatrix.InvTransposed | src/fi/harism/wallpaper/flipcube/FlipCubeRenderer.java:128-150 | the matrix invTransposeM builds: column 3 stays (0, 0, 0, 1); the upper-left 3x3 is copied from src, not transposed, so each of the first three columns dots any direction as src's axis does; entries 3, 7 and 11 cancel each axis's dot product with the translation |
| NormalMatrix.InvTransposeM | src/fi/harism/wallpaper/flipcube/FlipCubeRenderer.java:126-151 | dst[dstOffset..dstOffset+16] becomes InvTransposed of the 16 src floats, and every other entry of dst is unchanged |
| NormalMatrix.SetIdentityM | src/fi/harism/wallpaper/flipcube/FlipCubeRenderer.java:128 | the 16 entries at the offset become the identity; the rest are unchanged |
| NormalMatrix.CopyUpperLeft | src/fi/harism/wallpaper/flipcube/FlipCubeRenderer.java:130-139 | entries 0-2, 4-6 and 8-10 are copied from src and nothing else changes |
| NormalMatrix.WriteBottomRow | src/fi/harism/wallpaper/flipcube/FlipCubeRenderer.java:141-150 | entries 3, 7 and 11 become -(Ri . T) with T = src entries 12-14, and nothing else changes |
| NormalMatrix.InvTransposedEntries | src/fi/harism/wallpaper/flipcube/FlipCubeRenderer.java:126-151 | entry by entry: 0-2, 4-6 and 8-10 are copied, 3, 7 and 11 are -(Ri . T), 12-14 are 0 and 15 is 1 |
| NormalMatrix.EntriesRoundTrip | src/fi/harism/wallpaper/flipcube/FlipCubeRenderer.java:126-127 | the column-major float[16] layout and the matrix value convert into each other without loss, both ways |
| NormalMatrix.InverseTranspose | src/fi/harism/wallpaper/flipcube/FlipCubeRenderer.java:109-115 | for an affine matrix with orthonormal axes, transpose(result) * src == identity, so the result is the inverse transpose |
| NormalMatrix.ScaledInverse | src/fi/harism/wallpaper/flipcube/FlipCubeRenderer.java:303-330 | with axes orthogonal and of squared length k, transpose(result) * src == diag(k, k, k, 1). The call in renderPage has a uniform 0.5 scale, so k = 0.25 |
| NormalMatrix.TranslationCancels | src/fi/harism/wallpaper/flipcube/FlipCubeRenderer.java:141-150 | for any affine matrix, transpose(result) * src is the Gram matrix of the axes: the -(Ri . T) row cancels the translation |
| NormalMatrix.DirectionColumn | src/fi/harism/wallpaper/flipcube/FlipCubeRenderer.java:131-139 | on a direction (w = 0), transpose(result) yields its dot products with the three axes |
| NormalMatrix.TranslationColumn | src/fi/harism/wallpaper/flipcube/FlipCubeRenderer.java:141-150 | transpose(result) maps src's translation column to (0, 0, 0, 1) |
| FlipTiming.FlipDuration | src/fi/harism/wallpaper/flipcube/FlipCubeRenderer.java:194-195 | 200 + (long)(300 * sine), for sine in [0, 1], lies in [200, 500] |
| FlipTiming.Step | src/fi/harism/wallpaper/flipcube/FlipCubeRenderer.java:183-196 | mFlipTexture toggles exactly when more than mFlipTime ms have passed since mRenderTime; then mRenderTime becomes the frame time and mFlipTime a new value in [200, 500]; otherwise the three fields are unchanged |
| FlipTiming.StepRender | src/fi/harism/wallpaper/flipcube/FlipCubeRenderer.java:183-192 | a frame renders at most one page, exactly when a flip is due, into texture 0 or 1 and never into the texture under sBottom (the newest page) |
| FlipTiming.Compose | src/fi/harism/wallpaper/flipcube/FlipCubeRenderer.java:197-220 | the composite binds textures 0 and 1 to sTop and sBottom, one each, with the newest page under sBottom, and t is taken over the time since mRenderTime and mFlipTime |
| FlipTiming.FlipPos | src/fi/harism/wallpaper/flipcube/FlipCubeRenderer.java:197-226 | uFlipPos = 1 - t: 1 at the page render, 0 once mFlipTime ms have passed, and in [0, 1] in between |
| FlipTiming.SamplersDistinct | src/fi/harism/wallpaper/flipcube/FlipCubeRenderer.java:183-220 | sTop and sBottom are always 0 and 1, one each, and the next page renders into the texture under sTop |
| FlipTiming.StepKeepsSampler | src/fi/harism/wallpaper/flipcube/FlipCubeRenderer.java:183-196 | if the newest page is under sBottom before a frame, it is after. A page the frame renders goes into the other texture |
| FlipTiming.StepBounds | src/fi/harism/wallpaper/flipcube/FlipCubeRenderer.java:183-226 | on a clock not behind mRenderTime (past 0 on the first frame), after the step mFlipTime is in [200, 500] and 0 <= time - mRenderTime <= mFlipTime, so uFlipPos = 1 - t is in [0, 1] |
| FlipTiming.RunAlternates | src/fi/harism/wallpaper/flipcube/FlipCubeRenderer.java:182-196 | over any run of frames, each page render goes into the texture the previous one did not, and at the end the newest page is under sBottom |
| FlipTiming.PagesAlternateFromSetUp | src/fi/harism/wallpaper/flipcube/FlipCubeRenderer.java:244-246 | counting onSurfaceChanged's page into texture 0 as the 0th, the k-th page render of any run goes into texture k % 2 |
| FlipTiming.RunBounds | src/fi/harism/wallpaper/flipcube/FlipCubeRenderer.java:182-226 | over a run on a clock that never goes backwards, every composite drawn has mFlipTime in [200, 500], elapsed in [0, mFlipTime] and uFlipPos in [0, 1] |
| FlipTiming.RepeatedSurfaceChangeBreaksSampler | src/fi/harism/wallpaper/flipcube/FlipCubeRenderer.java:244-246 | after one flip, a second onSurfaceChanged leaves texture 0 newest while sBottom shows texture 1. The next due frame then renders texture 0 again |
| FlipCube.AllocateQuad | src/fi/harism/wallpaper/flipcube/FlipCubeRenderer.java:65-67 | the quad buffer holds exactly the 8 quad bytes at position 0 |
| FlipCube.AllocateFilled | src/fi/harism/wallpaper/flipcube/FlipCubeRenderer.java:89-106 | a buffer allocated at the expansion's size and filled holds exactly the expansion, rewound to position 0 |
| FlipCube.FlipCubeRenderer.constructor | src/fi/harism/wallpaper/flipcube/FlipCubeRenderer.java:47-107 | the three buffers hold the quad and the two expansions, the cube buffers at position 0; mFlipTexture is true, the times are 0, and there is no shader compiler yet |
| FlipCube.FlipCubeRenderer.OnSurfaceCreated | src/fi/harism/wallpaper/flipcube/FlipCubeRenderer.java:250-258 | records whether a shader compiler is present |
| FlipCube.FlipCubeRenderer.RenderPage | src/fi/harism/wallpaper/flipcube/FlipCubeRenderer.java:285-385 | one page render into the bound texture. Both cube buffers are left at position 3 and their contents are unchanged |
| FlipCube.FlipCubeRenderer.OnSurfaceChanged | src/fi/harism/wallpaper/flipcube/FlipCubeRenderer.java:233-247 | renders a page into texture 0, which leaves both cube buffers at position 3. The sampler invariant follows when mFlipTexture is true |
| FlipCube.FlipCubeRenderer.OnDrawFrame | src/fi/harism/wallpaper/flipcube/FlipCubeRenderer.java:167-230 | without a shader compiler: cleared, nothing changes (flip fields, renders, buffer positions). Otherwise: the flip fields take one Step and the renders gain StepRender. Both cube buffers end at position 3 after a page render and keep their positions otherwise. The composite is drawn from the new fields. It keeps the sampler invariant, never renders the same texture twice in a row, and keeps uFlipPos in [0, 1] when the old fields are the initial ones or hold a duration in [200, 500], the clock is not behind mRenderTime, and the first frame comes after time 0 |
| FlipCube.FlipCubeRenderer.AdvanceFlip | src/fi/harism/wallpaper/flipcube/FlipCubeRenderer.java:183-196 | the flip fields become Step of the old ones, and the renders gain exactly StepRender. Both cube buffers are at position 3 after a page render and keep their positions when no page is due |

## Left out

- OpenGL calls are not modelled. This covers shader programs, uniforms, attribute pointers, blending, culling and draw calls. A page render is recorded only as the texture it targets, and a frame as a `Frame` value.
- FlipCubeFbo, FlipCubeShader, loadRawString and showError are not part of this model. The shader compiler query and `SystemClock.uptimeMillis()` become inputs.
- The trigonometry is not modelled: setRotateM, the rotation angles and `Math.sin`. The sine that sets the flip duration is an input in [0, 1], the range its argument [0, PI) gives it.
- `android.opengl.Matrix` (orthoM, scaleM, translateM, multiplyMM) and the aspect-ratio computation in onSurfaceChanged are not modelled.
- Floating point: matrices and `t` are exact reals. Float rounding is not modelled.
- The `long` time fields are unbounded integers, so overflow of `time - mRenderTime` is not modelled. An uptime clock in milliseconds does not reach it.
- `StepBounds` and `RunBounds` assume a non-decreasing clock whose first frame is past 0. With `time == 0` on the first frame the Java divides 0 by 0; the model has no value for that frame.
- `FlipCube.FlipCubeRenderer.OnDrawFrame` states the uFlipPos bound only under the same conditions: the old flip fields are the initial ones or hold a duration in [200, 500], the clock is not behind mRenderTime, and a first frame comes after time 0.
- `NormalMatrix.InvTransposeM` requires `dst != src`. The Java has no such guard, but reading a source entry after its destination is written would matter only when they alias, and the renderer never aliases them. Aliasing is not modelled.
- `NormalMatrix.InvTransposeM` also requires both offsets to leave 16 entries; the Java would throw ArrayIndexOutOfBoundsException instead.
- `NormalMatrix.InverseTranspose` proves the left-inverse identity `transpose(N) * M == I` only; the right inverse is not stated.
- `CubeGeometry.FillBuffer` indexes the tables only after `ValidTable` holds. The Java's ArrayIndexOutOfBoundsException on a bad index is not modelled, since the tables are constants and are proved valid.
- Java's nested loops and straight-line stores are split into helper methods: FillFace, PutRecord, CopyUpperLeft, WriteBottomRow, AllocateQuad, AllocateFilled and AdvanceFlip. The order of the writes is unchanged.
- `FlipCube.FlipCubeRenderer.OnSurfaceChanged` is modelled as written: it always renders into texture 0. Once a flip has made mFlipTexture false, a repeated call breaks the sampler invariant; `FlipTiming.RepeatedSurfaceChangeBreaksSampler` exhibits this. Whether the visible result is wrong depends on FlipCubeFbo.init, which is not part of this model, so no finding is claimed.
