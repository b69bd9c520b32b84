// The double-buffered page flip of onDrawFrame as a state machine over the
// renderer's three flip fields. A page is rendered into one of two
// offscreen textures; the screen shows the two textures with a moving flip
// edge between them, the newer one underneath.

module FlipTiming {

  /** The fields onDrawFrame reads and writes: mFlipTexture, mRenderTime, mFlipTime. */
  datatype FlipState = FlipState(flipTexture: bool, renderTime: int, flipTime: int)

  /** The field initialisers: mFlipTexture = true; the two longs start at 0. */
  const Initial: FlipState := FlipState(true, 0, 0)

  /** The texture onSurfaceChanged renders the first page into. */
  const FirstTexture := 0

  const MinFlipTime := 200
  const MaxFlipTime := 500

  /** The texture the next page is rendered into: 1 while mFlipTexture, else 0. */
  function RenderTarget(flipTexture: bool): int {
    if flipTexture then 1 else 0
  }

  /** The texture bound to the sTop sampler. */
  function Top(flipTexture: bool): int {
    if flipTexture then 1 else 0
  }

  /** The texture bound to the sBottom sampler. */
  function Bottom(flipTexture: bool): int {
    if flipTexture then 0 else 1
  }

  /**
   * The new mFlipTime, 200 + (long) (300 * sine), where sine stands for
   * Math.sin(time % 30000 / 30000f * PI): its argument lies in [0, PI), so
   * sine lies in [0, 1]. The cast truncates, which is the floor here.
   */
  function FlipDuration(sine: real): (d: int)
    requires 0.0 <= sine <= 1.0
    ensures MinFlipTime <= d <= MaxFlipTime
  {
    200 + (300.0 * sine).Floor
  }

  /** A new page is due once more than mFlipTime ms have passed since the last one. */
  predicate FlipDue(s: FlipState, time: int) {
    time - s.renderTime > s.flipTime
  }

  /**
   * The flip fields after onDrawFrame at `time`: when a page is due it is
   * rendered, the flag toggles, the timestamp becomes `time` and a new
   * duration is drawn; otherwise nothing changes.
   */
  function Step(s: FlipState, time: int, sine: real): (r: FlipState)
    requires 0.0 <= sine <= 1.0
    ensures r.flipTexture != s.flipTexture <==> FlipDue(s, time)
    ensures FlipDue(s, time) ==> r.renderTime == time && MinFlipTime <= r.flipTime <= MaxFlipTime
    ensures !FlipDue(s, time) ==> r == s
  {
    if FlipDue(s, time) then FlipState(!s.flipTexture, time, FlipDuration(sine)) else s
  }

  /** The page render onDrawFrame does at `time`: none, or one into RenderTarget. */
  function StepRender(s: FlipState, time: int): (r: seq<int>)
    ensures |r| <= 1 && (|r| == 1 <==> FlipDue(s, time))
    ensures forall k :: 0 <= k < |r| ==> (r[k] == 0 || r[k] == 1) && r[k] != Bottom(s.flipTexture)
  {
    if FlipDue(s, time) then [RenderTarget(s.flipTexture)] else []
  }

  /**
   * What one onDrawFrame puts on screen: a cleared view when the shader
   * compiler is missing, otherwise the two textures under sTop and sBottom
   * with the flip at t = elapsed / flipTime.
   */
  datatype Frame = Cleared | Composite(top: int, bottom: int, elapsed: int, flipTime: int)

  /** The composite drawn after the step, from the new flip fields. */
  function Compose(s: FlipState, time: int): (r: Frame)
    ensures r.Composite? && r.top != r.bottom && 0 <= r.top <= 1 && 0 <= r.bottom <= 1
    ensures SamplerInvariant(s, r.bottom)
    ensures r.elapsed == time - s.renderTime && r.flipTime == s.flipTime
  {
    Composite(Top(s.flipTexture), Bottom(s.flipTexture), time - s.renderTime, s.flipTime)
  }

  /** uFlipPos = 1 - t, with t = (time - mRenderTime) / (float) mFlipTime. */
  function FlipPos(f: Frame): (r: real)
    requires f.Composite? && f.flipTime != 0
    ensures 0 <= f.elapsed <= f.flipTime ==> 0.0 <= r <= 1.0
    ensures f.elapsed == 0 ==> r == 1.0
    ensures f.elapsed == f.flipTime ==> r == 0.0
  {
    1.0 - (f.elapsed as real) / (f.flipTime as real)
  }

  /**
   * Sampler invariant: the texture rendered into last is the one under
   * sBottom (and sTop shows the other).
   */
  predicate SamplerInvariant(s: FlipState, last: int) {
    last == Bottom(s.flipTexture)
  }

  /** The state after the initial surface set-up, or one whose duration was drawn. */
  predicate Timed(s: FlipState) {
    s == Initial || MinFlipTime <= s.flipTime <= MaxFlipTime
  }

  /**
   * The top and bottom samplers are always the two textures 0 and 1, one
   * each, and the next page goes into the texture under sTop.
   */
  lemma {:induction false} SamplersDistinct(flipTexture: bool)
    ensures {Top(flipTexture), Bottom(flipTexture)} == {0, 1}
    ensures RenderTarget(flipTexture) == Top(flipTexture) != Bottom(flipTexture)
  {
  }

  /**
   * One step keeps the sampler invariant, and a page it renders goes into
   * the texture other than the one rendered last.
   */
  lemma {:induction false} StepKeepsSampler(s: FlipState, last: int, time: int, sine: real)
    requires 0.0 <= sine <= 1.0 && SamplerInvariant(s, last)
    ensures var r := StepRender(s, time);
      |r| <= 1 && (r != [] ==> r[0] != last) &&
      SamplerInvariant(Step(s, time, sine), if r == [] then last else r[0])
  {
  }

  /**
   * Transition bounds: on a clock that has not gone backwards since the
   * last page (and is past 0 on the first frame), after the step mFlipTime
   * is in [200, 500], 0 <= time - mRenderTime <= mFlipTime, so t is in
   * [0, 1] with a non-zero divisor and uFlipPos = 1 - t is in [0, 1].
   */
  lemma {:induction false} StepBounds(s: FlipState, time: int, sine: real)
    requires 0.0 <= sine <= 1.0 && Timed(s) && time >= s.renderTime
    requires s == Initial ==> time > 0
    ensures var s' := Step(s, time, sine);
      Timed(s') && MinFlipTime <= s'.flipTime <= MaxFlipTime &&
      0 <= time - s'.renderTime <= s'.flipTime &&
      0.0 <= FlipPos(Compose(s', time)) <= 1.0
  {
    var s' := Step(s, time, sine);
    var f := Compose(s', time);
    assert 0 <= f.elapsed <= f.flipTime && f.flipTime > 0;
    var e, d := f.elapsed as real, f.flipTime as real;
    assert e / d * d == e;
  }

  /** One onDrawFrame call: the uptime clock and the sine that goes with it. */
  datatype Tick = Tick(time: int, sine: real)

  predicate ValidTicks(ts: seq<Tick>) {
    forall k :: 0 <= k < |ts| ==> 0.0 <= ts[k].sine <= 1.0
  }

  /** The uptime clock never goes backwards. */
  predicate NonDecreasing(ts: seq<Tick>) {
    forall j, k :: 0 <= j < k < |ts| ==> ts[j].time <= ts[k].time
  }

  /** The flip fields after a run of onDrawFrame calls. */
  function Run(s: FlipState, ts: seq<Tick>): FlipState
    requires ValidTicks(ts)
    decreases |ts|
  {
    if ts == [] then s else Run(Step(s, ts[0].time, ts[0].sine), ts[1..])
  }

  /** The page renders of a run of onDrawFrame calls, in order. */
  function Renders(s: FlipState, ts: seq<Tick>): seq<int>
    requires ValidTicks(ts)
    decreases |ts|
  {
    if ts == [] then [] else StepRender(s, ts[0].time) + Renders(Step(s, ts[0].time, ts[0].sine), ts[1..])
  }

  /** The frames a run of onDrawFrame calls puts on screen. */
  function Frames(s: FlipState, ts: seq<Tick>): (fs: seq<Frame>)
    requires ValidTicks(ts)
    ensures |fs| == |ts|
    decreases |ts|
  {
    if ts == [] then []
    else
      var s' := Step(s, ts[0].time, ts[0].sine);
      [Compose(s', ts[0].time)] + Frames(s', ts[1..])
  }

  /** Consecutive renders alternate between textures 0 and 1. */
  predicate Alternating(r: seq<int>) {
    forall k :: 0 < k < |r| ==> r[k] == 1 - r[k - 1]
  }

  /** The texture rendered last: the final render of `r`, or `last` if there is none. */
  function LastRender(last: int, r: seq<int>): int {
    if r == [] then last else r[|r| - 1]
  }

  lemma {:induction false} PrependAlternating(a: int, t: seq<int>)
    requires Alternating(t) && (t != [] ==> t[0] == 1 - a)
    ensures Alternating([a] + t)
  {
    forall k | 0 < k < |[a] + t|
      ensures ([a] + t)[k] == 1 - ([a] + t)[k - 1]
    {
      if k > 1 {
        assert ([a] + t)[k] == t[k - 1] && ([a] + t)[k - 1] == t[k - 2];
      }
    }
  }

  /**
   * Over any run, each page goes into the texture the previous page did not
   * use, and at the end the texture rendered last is under sBottom.
   */
  lemma {:induction false} RunAlternates(s: FlipState, last: int, ts: seq<Tick>)
    requires ValidTicks(ts) && SamplerInvariant(s, last)
    ensures Alternating([last] + Renders(s, ts))
    ensures SamplerInvariant(Run(s, ts), LastRender(last, Renders(s, ts)))
    decreases |ts|
  {
    if ts != [] {
      var s' := Step(s, ts[0].time, ts[0].sine);
      var r := StepRender(s, ts[0].time);
      var last' := if r == [] then last else r[0];
      StepKeepsSampler(s, last, ts[0].time, ts[0].sine);
      assert ValidTicks(ts[1..]) by {
        forall k | 0 <= k < |ts[1..]| ensures 0.0 <= ts[1..][k].sine <= 1.0 {
          assert ts[1..][k] == ts[k + 1];
        }
      }
      RunAlternates(s', last', ts[1..]);
      var rest := Renders(s', ts[1..]);
      assert Renders(s, ts) == r + rest;
      if r == [] {
        assert r + rest == rest;
      } else {
        assert [last] + (r + rest) == [last] + ([last'] + rest);
        PrependAlternating(last, [last'] + rest);
        assert LastRender(last, r + rest) == LastRender(last', rest);
      }
    }
  }

  /**
   * From the initial surface set-up, which renders the first page into
   * texture 0 with mFlipTexture still true, the k-th page render of the
   * whole run (counting that one as the 0th) goes into texture k % 2.
   */
  lemma {:induction false} PagesAlternateFromSetUp(ts: seq<Tick>)
    requires ValidTicks(ts)
    ensures var r := [FirstTexture] + Renders(Initial, ts);
      forall k :: 0 <= k < |r| ==> r[k] == k % 2
  {
    RunAlternates(Initial, FirstTexture, ts);
    var r := [FirstTexture] + Renders(Initial, ts);
    var k := 0;
    while k < |r|
      invariant 0 <= k <= |r|
      invariant forall j :: 0 <= j < k ==> r[j] == j % 2
    {
      if k > 0 {
        assert r[k] == 1 - r[k - 1];
      }
      k := k + 1;
    }
  }

  /**
   * Over a run on a clock that never goes backwards and starts after the
   * last page (past 0 on the very first frame), every frame drawn has
   * mFlipTime in [200, 500], 0 <= elapsed <= mFlipTime and uFlipPos in [0, 1].
   */
  lemma {:induction false} RunBounds(s: FlipState, ts: seq<Tick>)
    requires ValidTicks(ts) && NonDecreasing(ts) && Timed(s)
    requires ts != [] ==> ts[0].time >= s.renderTime && (s == Initial ==> ts[0].time > 0)
    ensures var fs := Frames(s, ts);
      forall k :: 0 <= k < |fs| ==>
        fs[k].Composite? && MinFlipTime <= fs[k].flipTime <= MaxFlipTime &&
        0 <= fs[k].elapsed <= fs[k].flipTime && 0.0 <= FlipPos(fs[k]) <= 1.0
    decreases |ts|
  {
    if ts != [] {
      var s' := Step(s, ts[0].time, ts[0].sine);
      StepBounds(s, ts[0].time, ts[0].sine);
      var rest := ts[1..];
      assert ValidTicks(rest) by {
        forall k | 0 <= k < |rest| ensures 0.0 <= rest[k].sine <= 1.0 {
          assert rest[k] == ts[k + 1];
        }
      }
      assert NonDecreasing(rest) by {
        forall j, k | 0 <= j < k < |rest| ensures rest[j].time <= rest[k].time {
          assert rest[j] == ts[j + 1] && rest[k] == ts[k + 1];
        }
      }
      if rest != [] {
        assert rest[0] == ts[1];
        assert s' != Initial;
      }
      RunBounds(s', rest);
      var fs := Frames(s, ts);
      assert fs == [Compose(s', ts[0].time)] + Frames(s', rest);
      forall k | 0 <= k < |fs|
        ensures fs[k].Composite? && MinFlipTime <= fs[k].flipTime <= MaxFlipTime &&
                0 <= fs[k].elapsed <= fs[k].flipTime && 0.0 <= FlipPos(fs[k]) <= 1.0
      {
        if k > 0 {
          assert fs[k] == Frames(s', rest)[k - 1];
        }
      }
    }
  }

  /**
   * onSurfaceChanged renders into texture 0 whatever mFlipTexture is. Run
   * again after one flip (a rotation, say), it leaves texture 0 as the
   * newest page while sBottom shows texture 1, and the next due frame
   * renders into texture 0 a second time in a row.
   */
  lemma RepeatedSurfaceChangeBreaksSampler()
    ensures var s := Step(Initial, 1, 0.0);
      StepRender(Initial, 1) == [1] && !s.flipTexture &&
      !SamplerInvariant(s, FirstTexture) &&
      StepRender(s, 1 + s.flipTime + 1) == [FirstTexture]
  {
  }
}
