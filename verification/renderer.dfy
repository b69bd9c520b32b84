// The renderer object: the three vertex buffers its constructor fills, the
// flip fields onDrawFrame advances, and the page renders it issues into the
// two offscreen textures. GL drawing itself is not modelled; a page render
// is recorded by the texture it targets.

module FlipCube {
  import opened Buffers
  import opened CubeGeometry
  import opened FlipTiming

  /** The full-view quad, four 2D points for a triangle strip. */
  const QuadBytes: seq<Byte> := [-1, 1, -1, -1, 1, 1, 1, -1]
  /** The capacity passed to allocateDirect for the quad. */
  const QuadCapacity := 8

  /** `d` is exactly the expansion of `table`. */
  ghost predicate Holds(d: seq<Byte>, table: seq<Face>) {
    ValidTable(table) && d == Expanded(table)
  }

  /**
   * The quad part of the constructor: allocateDirect(8), put the quad
   * corners, rewind.
   */
  method AllocateQuad() returns (buf: ByteBuffer)
    ensures fresh(buf) && fresh(buf.data) && buf.Valid()
    ensures buf.data.Length == QuadCapacity && buf.data[..] == QuadBytes && buf.position == 0
  {
    buf := new ByteBuffer.AllocateDirect(QuadCapacity);
    var ok := buf.Put(QuadBytes);
    buf.SetPosition(0);
  }

  /**
   * A cube part of the constructor: allocateDirect(capacity), fill it from
   * the table face by face, rewind. With the capacity the expansion's
   * length, every put fits and the buffer ends up holding exactly the
   * expansion.
   */
  method AllocateFilled(table: seq<Face>, capacity: nat) returns (buf: ByteBuffer)
    requires ValidTable(table) && |Expanded(table)| == capacity
    ensures fresh(buf) && fresh(buf.data) && buf.Valid()
    ensures buf.data.Length == capacity && buf.position == 0 && Holds(buf.data[..], table)
  {
    buf := new ByteBuffer.AllocateDirect(capacity);
    var ok := FillBuffer(buf, table);
    assert buf.data[..] == buf.data[0..buf.position];
    buf.SetPosition(0);
  }

  class FlipCubeRenderer {
    /** The full-view quad, 4 two-byte corners. */
    const bufferQuad: ByteBuffer
    /** The cube outline: 48 records of vertex then normal. */
    const bufferCubeLines: ByteBuffer
    /** The cube faces as triangles: 36 records of vertex then normal. */
    const bufferCubeFilled: ByteBuffer
    /** What the two cube buffers hold for the renderer's lifetime. */
    ghost const linesBytes: seq<Byte>
    ghost const filledBytes: seq<Byte>

    var flipTexture: bool
    var renderTime: int
    var flipTime: int
    /** mShaderCompilerSupport[0], as queried when the surface is created. */
    var shaderCompilerSupport: bool

    /** The textures page renders went into, oldest first. */
    ghost var renders: seq<int>

    /** The flip fields as one value. */
    function State(): FlipState
      reads this
    {
      FlipState(flipTexture, renderTime, flipTime)
    }

    /**
     * The buffers are distinct, the quad buffer holds the quad corners and
     * is read from position 0, and the cube buffers keep their contents.
     */
    ghost predicate Valid()
      reads bufferQuad, bufferCubeLines, bufferCubeFilled
      reads bufferQuad.data, bufferCubeLines.data, bufferCubeFilled.data
    {
      bufferQuad != bufferCubeLines && bufferQuad != bufferCubeFilled &&
      bufferCubeLines != bufferCubeFilled &&
      bufferQuad.Valid() && bufferCubeLines.Valid() && bufferCubeFilled.Valid() &&
      bufferQuad.data[..] == QuadBytes && bufferQuad.position == 0 &&
      bufferCubeLines.data[..] == linesBytes && |linesBytes| == LinesCapacity &&
      bufferCubeFilled.data[..] == filledBytes && |filledBytes| == FilledCapacity
    }

    /**
     * The cube buffers' contents are the expansions of the two tables. It
     * reads no mutable state, so once the constructor establishes it, it
     * holds for good.
     */
    ghost predicate Expansions() {
      Holds(linesBytes, CubeLines) && Holds(filledBytes, CubeFilled)
    }

    /** The last page rendered is the texture under sBottom. */
    ghost predicate SamplerOk()
      reads this
    {
      |renders| > 0 && SamplerInvariant(State(), renders[|renders| - 1])
    }

    /**
     * The constructor: allocate the quad buffer and put the quad corners;
     * allocate the two cube buffers at their exact sizes, fill them face by
     * face and rewind them. The flip fields take their initial values.
     */
    constructor ()
      ensures Valid() && Expansions() && fresh(bufferQuad) && fresh(bufferCubeLines) && fresh(bufferCubeFilled)
      ensures fresh(bufferQuad.data) && fresh(bufferCubeLines.data) && fresh(bufferCubeFilled.data)
      ensures bufferQuad.data.Length == QuadCapacity
      ensures bufferCubeLines.data.Length == LinesCapacity && bufferCubeLines.position == 0
      ensures bufferCubeFilled.data.Length == FilledCapacity && bufferCubeFilled.position == 0
      ensures State() == Initial && !shaderCompilerSupport && renders == []
    {
      var quad := AllocateQuad();
      ExpansionSizes();
      var lines := AllocateFilled(CubeLines, LinesCapacity);
      var filled := AllocateFilled(CubeFilled, FilledCapacity);
      bufferQuad := quad;
      bufferCubeLines := lines;
      bufferCubeFilled := filled;
      linesBytes := lines.data[..];
      filledBytes := filled.data[..];
      flipTexture := true;
      renderTime := 0;
      flipTime := 0;
      shaderCompilerSupport := false;
      renders := [];
    }

    /**
     * onSurfaceCreated: records whether the GL has a shader compiler.
     * Loading the shader programs is not modelled.
     */
    method OnSurfaceCreated(shaderCompiler: bool)
      modifies this`shaderCompilerSupport
      ensures shaderCompilerSupport == shaderCompiler
    {
      shaderCompilerSupport := shaderCompiler;
    }

    /**
     * renderPage into the bound texture `target`: sets up the stride-6
     * position and normal pointers of each cube buffer (position 0, then
     * position 3), which leaves both buffers at position 3.
     */
    method RenderPage(target: int)
      requires Valid()
      modifies this`renders, bufferCubeLines`position, bufferCubeFilled`position
      ensures Valid() && renders == old(renders) + [target]
      ensures bufferCubeLines.position == NormalOffset && bufferCubeFilled.position == NormalOffset
    {
      bufferCubeLines.SetPosition(0);
      bufferCubeLines.SetPosition(NormalOffset);
      bufferCubeFilled.SetPosition(0);
      bufferCubeFilled.SetPosition(NormalOffset);
      renders := renders + [target];
    }

    /**
     * onSurfaceChanged: renders the first page into texture 0, whatever
     * mFlipTexture is. The sampler invariant follows only while
     * mFlipTexture is still true, as it is on the first call.
     */
    method OnSurfaceChanged()
      requires Valid()
      modifies this`renders, bufferCubeLines`position, bufferCubeFilled`position
      ensures Valid() && renders == old(renders) + [FirstTexture]
      ensures flipTexture ==> SamplerOk()
      ensures bufferCubeLines.position == NormalOffset && bufferCubeFilled.position == NormalOffset
    {
      RenderPage(FirstTexture);
    }

    /**
     * onDrawFrame at uptime `time`, where `sine` is the sine value that
     * sets the next flip duration. Without a shader compiler the view is
     * cleared and nothing else happens. Otherwise the flip fields take one
     * Step, a due page is rendered into RenderTarget, and the composite of
     * the two textures is drawn from the new fields. The step keeps the
     * sampler invariant, renders into the texture not rendered last, and on
     * a clock that has not gone backwards leaves uFlipPos in [0, 1].
     */
    method OnDrawFrame(time: int, sine: real) returns (frame: Frame)
      requires Valid() && 0.0 <= sine <= 1.0
      modifies this`flipTexture, this`renderTime, this`flipTime, this`renders
      modifies bufferCubeLines`position, bufferCubeFilled`position
      ensures Valid()
      ensures !shaderCompilerSupport ==>
        frame == Cleared && State() == old(State()) && renders == old(renders)
      ensures shaderCompilerSupport ==>
        State() == Step(old(State()), time, sine) &&
        renders == old(renders) + StepRender(old(State()), time) &&
        frame == Compose(State(), time)
      ensures old(SamplerOk()) ==> SamplerOk()
      ensures old(SamplerOk()) && |renders| > |old(renders)| ==>
        renders[|renders| - 1] != old(renders)[|old(renders)| - 1]
      ensures shaderCompilerSupport && Timed(old(State())) && time >= old(renderTime) &&
              (old(State()) == Initial ==> time > 0) ==>
        Timed(State()) && frame.Composite? && frame.flipTime != 0 &&
        0.0 <= FlipPos(frame) <= 1.0
      ensures shaderCompilerSupport && StepRender(old(State()), time) != [] ==>
        bufferCubeLines.position == NormalOffset && bufferCubeFilled.position == NormalOffset
      ensures !shaderCompilerSupport || StepRender(old(State()), time) == [] ==>
        bufferCubeLines.position == old(bufferCubeLines.position) &&
        bufferCubeFilled.position == old(bufferCubeFilled.position)
    {
      if !shaderCompilerSupport {
        return Cleared;
      }
      ghost var s := State();
      AdvanceFlip(time, sine);
      var top, bottom := if flipTexture then 1 else 0, if flipTexture then 0 else 1;
      frame := Composite(top, bottom, time - renderTime, flipTime);
      if old(SamplerOk()) {
        StepKeepsSampler(s, old(renders)[|old(renders)| - 1], time, sine);
      }
      if Timed(s) && time >= s.renderTime && (s == Initial ==> time > 0) {
        StepBounds(s, time, sine);
      }
    }

    /**
     * The flip part of onDrawFrame: once more than mFlipTime ms have passed
     * since the last page, render the next page into texture 1 if
     * mFlipTexture is set, else 0, toggle mFlipTexture, stamp mRenderTime
     * and draw a new mFlipTime.
     */
    method AdvanceFlip(time: int, sine: real)
      requires Valid() && 0.0 <= sine <= 1.0
      modifies this`flipTexture, this`renderTime, this`flipTime, this`renders
      modifies bufferCubeLines`position, bufferCubeFilled`position
      ensures Valid()
      ensures State() == Step(old(State()), time, sine)
      ensures renders == old(renders) + StepRender(old(State()), time)
      ensures StepRender(old(State()), time) != [] ==>
        bufferCubeLines.position == NormalOffset && bufferCubeFilled.position == NormalOffset
      ensures StepRender(old(State()), time) == [] ==>
        bufferCubeLines.position == old(bufferCubeLines.position) &&
        bufferCubeFilled.position == old(bufferCubeFilled.position)
    {
      if time - renderTime > flipTime {
        var target := if flipTexture then 1 else 0;
        RenderPage(target);
        flipTexture := !flipTexture;
        renderTime := time;
        flipTime := FlipDuration(sine);
      }
    }
  }
}
