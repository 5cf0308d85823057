/** Cadence arithmetic and the writing-interval schedule (the interval scheduler). */
module Cadence {
  import opened Events

  /** The number of outputs of the most frequent stream per frame set. */
  const DefaultFramesPerFrameSet: int := 100

  /** The strides of the run input record that drive the schedule. */
  datatype InputRec = InputRec(nstxout: int, nstvout: int, nstfout: int, nstxoutCompressed: int)

  predicate IsCommonDivisor(d: int, a: int, b: int) {
    d > 0 && a % d == 0 && b % d == 0
  }

  /** r is a common divisor of a and b and every common divisor divides r. */
  ghost predicate IsGcd(r: int, a: int, b: int) {
    IsCommonDivisor(r, a, b) && forall d :: IsCommonDivisor(d, a, b) ==> r % d == 0
  }

  lemma {:induction false} MulAtLeast(d: int, t: int)
    requires d > 0 && t >= 1
    ensures d * t >= d
    decreases t
  {
    if t > 1 {
      MulAtLeast(d, t - 1);
      assert d * t == d * (t - 1) + d;
    }
  }

  lemma {:induction false} MulAtMost(d: int, t: int)
    requires d > 0 && t <= -1
    ensures d * t <= -d
  {
    MulAtLeast(d, -t);
    assert d * t == -(d * (-t));
  }

  /** A multiple of d leaves remainder 0. */
  lemma ModOfMultiple(d: int, m: int)
    requires d > 0
    ensures (d * m) % d == 0
  {
    var x := d * m;
    var t := m - x / d;
    assert x == d * (x / d) + x % d;
    assert x % d == d * t;
    if t >= 1 { MulAtLeast(d, t); }
    if t <= -1 { MulAtMost(d, t); }
  }

  lemma DivisorBounded(d: int, r: int)
    requires d > 0 && r > 0 && r % d == 0
    ensures d <= r
  {
    var q := r / d;
    assert r == d * q + r % d;
    if q <= 0 {
      if q <= -1 { MulAtMost(d, q); }
    } else {
      MulAtLeast(d, q);
    }
  }

  lemma DividesLinear(d: int, x: int, y: int, k: int)
    requires d > 0 && x % d == 0 && y % d == 0
    ensures (x + k * y) % d == 0
  {
    var p, q := x / d, y / d;
    assert x == d * p + x % d;
    assert y == d * q + y % d;
    assert k * y == d * (k * q);
    assert x + k * y == d * (p + k * q);
    ModOfMultiple(d, p + k * q);
  }

  lemma DividesTransitive(c: int, g: int, x: int)
    requires c > 0 && g > 0 && g % c == 0 && x % g == 0
    ensures x % c == 0
  {
    var p, q := g / c, x / g;
    assert g == c * p + g % c;
    assert x == g * q + x % g;
    assert x == c * (p * q);
    ModOfMultiple(c, p * q);
  }

  /** Euclid's algorithm, the greatest common divisor of the core's positive strides. */
  function Gcd(a: int, b: int): (r: int)
    requires a > 0 && b >= 0
    ensures IsGcd(r, a, b)
    decreases b
  {
    if b == 0 then a
    else
      var r := Gcd(b, a % b);
      var q := a / b;
      assert a == b * q + a % b;
      assert a == a % b + q * b;
      assert IsGcd(r, a, b) by {
        DividesLinear(r, a % b, b, q);
        forall d | IsCommonDivisor(d, a, b) ensures r % d == 0 {
          DividesLinear(d, a, b, -q);
          assert a + (-q) * b == a % b;
          assert IsCommonDivisor(d, b, a % b);
        }
      }
      r
  }

  /** greatest_common_divisor_if_positive: strides that are not positive impose no constraint. */
  function GcdIfPositive(n1: int, n2: int): (r: int)
    ensures n1 <= 0 && n2 <= 0 ==> r == -1
    ensures n1 <= 0 < n2 ==> r == n2
    ensures n2 <= 0 < n1 ==> r == n1
    ensures n1 > 0 && n2 > 0 ==> IsGcd(r, n1, n2)
    ensures n1 > 0 && n2 > 0 ==> forall d :: IsCommonDivisor(d, n1, n2) ==> d <= r
  {
    if 0 >= n1 then (if 0 >= n2 then -1 else n2)
    else if 0 >= n2 then n1
    else
      var g := Gcd(n1, n2);
      assert forall d :: IsCommonDivisor(d, n1, n2) ==> d <= g by {
        forall d | IsCommonDivisor(d, n1, n2) ensures d <= g {
          DivisorBounded(d, g);
        }
      }
      g
  }

  /** The value of `gcd` in tng_set_frames_per_frame_set. */
  function FrameSetCadence(lossy: bool, ir: InputRec): int {
    if lossy then ir.nstxoutCompressed
    else GcdIfPositive(GcdIfPositive(ir.nstxout, ir.nstvout), ir.nstfout)
  }

  /** d divides every positive one of the three strides. */
  predicate DividesPositive(d: int, x: int, v: int, f: int) {
    d > 0 && (x > 0 ==> x % d == 0) && (v > 0 ==> v % d == 0) && (f > 0 ==> f % d == 0)
  }

  /** In lossless mode the cadence is -1 exactly when no stream is enabled; otherwise it is
      the greatest number that divides every positive stride. */
  lemma {:induction false} LosslessCadence(ir: InputRec)
    ensures var c := FrameSetCadence(false, ir);
      && (c <= 0 <==> ir.nstxout <= 0 && ir.nstvout <= 0 && ir.nstfout <= 0)
      && (c <= 0 ==> c == -1)
      && (c > 0 ==> DividesPositive(c, ir.nstxout, ir.nstvout, ir.nstfout))
      && (forall d :: DividesPositive(d, ir.nstxout, ir.nstvout, ir.nstfout) && c > 0 ==> c % d == 0 && d <= c)
  {
    var x, v, f := ir.nstxout, ir.nstvout, ir.nstfout;
    var g := GcdIfPositive(x, v);
    var c := GcdIfPositive(g, f);
    assert c == FrameSetCadence(false, ir);
    if c > 0 {
      if g > 0 && f > 0 {
        if x > 0 { DividesTransitive(c, g, x); }
        if v > 0 { DividesTransitive(c, g, v); }
      }
      assert DividesPositive(c, x, v, f);
      forall d | DividesPositive(d, x, v, f) ensures c % d == 0 && d <= c {
        if g > 0 {
          assert g % d == 0 by {
            if x > 0 && v > 0 { assert IsCommonDivisor(d, x, v); }
          }
          if f > 0 { assert IsCommonDivisor(d, g, f); }
        }
        DivisorBounded(d, c);
      }
    }
  }

  /** The events of tng_set_frames_per_frame_set: none when the cadence is not positive. */
  function FrameSetEvents(lossy: bool, ir: InputRec): seq<Event> {
    var c := FrameSetCadence(lossy, ir);
    if 0 >= c then [] else [SetFramesPerFrameSet(c * DefaultFramesPerFrameSet)]
  }

  /** At most one frames-per-frame-set event, carrying cadence x 100, issued iff the cadence is positive. */
  lemma FrameSetEventsShape(lossy: bool, ir: InputRec)
    ensures var c := FrameSetCadence(lossy, ir);
      && (|FrameSetEvents(lossy, ir)| == 1 <==> c > 0)
      && (c <= 0 ==> FrameSetEvents(lossy, ir) == [])
      && (c > 0 ==> FrameSetEvents(lossy, ir) == [SetFramesPerFrameSet(100 * c)])
      && (lossy ==> c == ir.nstxoutCompressed)
  {
  }

  /** The intervals of the position stream and of the box and lambda streams that ride on it. */
  function PositionIntervals(xout: int, compression: Compression): seq<Event> {
    if xout != 0 then
      [ SetInterval(WritingInterval(xout, 3, Positions, ParticleBlockData, compression)),
        SetInterval(WritingInterval(xout, 9, BoxShape, NonParticleBlockData, GzipCompression)),
        SetInterval(WritingInterval(xout, 1, Lambdas, NonParticleBlockData, GzipCompression)) ]
    else []
  }

  /** The interval of one stream of three components per particle, issued when out is non-zero. */
  function ParticleInterval(out: int, stride: int, kind: BlockKind, compression: Compression): seq<Event> {
    if out != 0 then [SetInterval(WritingInterval(stride, 3, kind, ParticleBlockData, compression))] else []
  }

  /** The stream intervals of set_writing_intervals, after the frame-set events. */
  function StreamIntervals(lossy: bool, ir: InputRec): seq<Event> {
    var xout := if lossy then ir.nstxoutCompressed else ir.nstxout;
    var vout := if lossy then 0 else ir.nstvout;
    var fout := if lossy then 0 else ir.nstfout;
    var compression := ModeCompression(lossy);
    PositionIntervals(xout, compression)
    + ParticleInterval(vout, ir.nstvout, Velocities, compression)
    + ParticleInterval(fout, ir.nstfout, Forces, GzipCompression)
  }

  /** Every event set_writing_intervals issues, in order. */
  function WritingIntervalEvents(lossy: bool, ir: InputRec): seq<Event> {
    FrameSetEvents(lossy, ir) + StreamIntervals(lossy, ir)
  }

  /** The position stride of the mode. */
  function PositionStride(lossy: bool, ir: InputRec): int {
    if lossy then ir.nstxoutCompressed else ir.nstxout
  }

  /** The stride a stream of the given kind is scheduled with, 0 when the mode disables it. */
  function StreamStride(lossy: bool, ir: InputRec, kind: BlockKind): int {
    match kind
    case Positions => PositionStride(lossy, ir)
    case BoxShape => PositionStride(lossy, ir)
    case Lambdas => PositionStride(lossy, ir)
    case Velocities => if lossy then 0 else ir.nstvout
    case Forces => if lossy then 0 else ir.nstfout
  }

  function ComponentsOf(kind: BlockKind): nat {
    match kind
    case BoxShape => 9
    case Lambdas => 1
    case _ => 3
  }

  /** Every interval event carries its kind's stride, component count, scope and compression:
      box and lambda follow the position stride and are always GZIP, forces are always GZIP,
      positions and velocities use the mode's compression. */
  lemma {:induction false} StreamIntervalsFields(lossy: bool, ir: InputRec, k: nat)
    requires k < |StreamIntervals(lossy, ir)|
    ensures StreamIntervals(lossy, ir)[k].SetInterval?
    ensures var w := StreamIntervals(lossy, ir)[k].interval;
      && w.stride == StreamStride(lossy, ir, w.kind) != 0
      && w.components == ComponentsOf(w.kind)
      && (w.scope == ParticleBlockData <==> w.kind in {Positions, Velocities, Forces})
      && (w.kind in {Positions, Velocities} ==> w.compression == ModeCompression(lossy))
      && (w.kind in {BoxShape, Lambdas, Forces} ==> w.compression == GzipCompression)
  {
  }

  /** A stream gets exactly one interval when its stride is non-zero and none otherwise; in
      lossy mode velocities and forces are never scheduled. */
  lemma StreamIntervalsPresence(lossy: bool, ir: InputRec, kind: BlockKind)
    ensures IntervalCount(StreamIntervals(lossy, ir), kind) == (if StreamStride(lossy, ir, kind) != 0 then 1 else 0)
    ensures lossy && kind in {Velocities, Forces} ==> IntervalCount(StreamIntervals(lossy, ir), kind) == 0
  {
    var compression := ModeCompression(lossy);
    var xs := PositionIntervals(PositionStride(lossy, ir), compression);
    var vs := ParticleInterval(if lossy then 0 else ir.nstvout, ir.nstvout, Velocities, compression);
    var fs := ParticleInterval(if lossy then 0 else ir.nstfout, ir.nstfout, Forces, GzipCompression);
    assert StreamIntervals(lossy, ir) == xs + (vs + fs);
    PositionIntervalsCount(PositionStride(lossy, ir), compression, kind);
    ParticleIntervalCount(if lossy then 0 else ir.nstvout, ir.nstvout, Velocities, compression, kind);
    ParticleIntervalCount(if lossy then 0 else ir.nstfout, ir.nstfout, Forces, GzipCompression, kind);
    IntervalCountAppend(xs, vs + fs, kind);
    IntervalCountAppend(vs, fs, kind);
  }

  lemma PositionIntervalsCount(xout: int, compression: Compression, kind: BlockKind)
    ensures IntervalCount(PositionIntervals(xout, compression), kind)
         == if xout != 0 && kind in {Positions, BoxShape, Lambdas} then 1 else 0
  {
    var xs := PositionIntervals(xout, compression);
    if xout != 0 {
      assert xs[1..][1..][1..] == [];
      assert IntervalCount(xs[1..][1..], kind) == if kind == Lambdas then 1 else 0;
    }
  }

  lemma ParticleIntervalCount(out: int, stride: int, k: BlockKind, compression: Compression, kind: BlockKind)
    ensures IntervalCount(ParticleInterval(out, stride, k, compression), kind) == if out != 0 && kind == k then 1 else 0
  {
    var vs := ParticleInterval(out, stride, k, compression);
    if out != 0 { assert vs[1..] == []; }
  }

  /** How many interval events in es are for the given block kind. */
  function IntervalCount(es: seq<Event>, kind: BlockKind): nat
  {
    if es == [] then 0
    else (if es[0].SetInterval? && es[0].interval.kind == kind then 1 else 0) + IntervalCount(es[1..], kind)
  }

  lemma {:induction false} IntervalCountAppend(xs: seq<Event>, ys: seq<Event>, kind: BlockKind)
    ensures IntervalCount(xs + ys, kind) == IntervalCount(xs, kind) + IntervalCount(ys, kind)
  {
    if xs == [] {
      assert xs + ys == ys;
    } else {
      assert (xs + ys)[1..] == xs[1..] + ys;
      IntervalCountAppend(xs[1..], ys, kind);
    }
  }
}
