/** The block writes of one output frame (gmx_fwrite_tng), as events. */
module FrameWriter {
  import opened Events

  /** The C cast (int)n of a 64-bit particle count: two's-complement truncation to 32 bits. */
  function ToInt32(n: int): (r: int)
    ensures -0x8000_0000 <= r < 0x8000_0000
    ensures -0x8000_0000 <= n < 0x8000_0000 ==> r == n
    ensures (n - r) % 0x1_0000_0000 == 0
  {
    var m := n % 0x1_0000_0000;
    if m >= 0x8000_0000 then m - 0x1_0000_0000 else m
  }

  function Write(step: int, components: nat, kind: BlockKind, scope: Scope, compression: Compression): Event {
    WriteBlock(BlockWrite(step, components, kind, scope, compression))
  }

  /** The implicit-particle-count update, issued when the frame's atom count differs from the
      container's particle count. */
  function ParticleCountEvents(nAtoms: int, nParticles: int): seq<Event> {
    if nAtoms != ToInt32(nParticles) then [SetImplicitParticleCount(nAtoms)] else []
  }

  /** Positions with the mode's compression, then the box, always GZIP. */
  function PositionWrites(step: int, compression: Compression, hasX: bool): seq<Event> {
    if hasX then [ Write(step, 3, Positions, ParticleBlockData, compression),
                   Write(step, 9, BoxShape, NonParticleBlockData, GzipCompression) ]
    else []
  }

  function VelocityWrites(step: int, compression: Compression, hasV: bool): seq<Event> {
    if hasV then [Write(step, 3, Velocities, ParticleBlockData, compression)] else []
  }

  /** Forces are always GZIP. */
  function ForceWrites(step: int, hasF: bool): seq<Event> {
    if hasF then [Write(step, 3, Forces, ParticleBlockData, GzipCompression)] else []
  }

  /** The lambda value, written on every call, always GZIP. */
  function LambdaWrites(step: int): seq<Event> {
    [Write(step, 1, Lambdas, NonParticleBlockData, GzipCompression)]
  }

  /** The events of one gmx_fwrite_tng call on an open handle whose particle count is nParticles;
      hasX, hasV and hasF say which of the buffers x, v and f are non-null. */
  function FrameEvents(lossy: bool, step: int, nAtoms: int, nParticles: int,
                       hasX: bool, hasV: bool, hasF: bool): seq<Event>
  {
    var compression := ModeCompression(lossy);
    ParticleCountEvents(nAtoms, nParticles)
    + PositionWrites(step, compression, hasX)
    + VelocityWrites(step, compression, hasV)
    + ForceWrites(step, hasF)
    + LambdaWrites(step)
  }

  /** The fixed write order: positions, box, velocities, forces, lambdas. */
  function Rank(kind: BlockKind): nat {
    match kind
    case Positions => 0
    case BoxShape => 1
    case Velocities => 2
    case Forces => 3
    case Lambdas => 4
  }

  /** Whether a frame with these buffers writes a block of this kind. */
  function IsWritten(kind: BlockKind, hasX: bool, hasV: bool, hasF: bool): bool {
    match kind
    case Positions => hasX
    case BoxShape => hasX
    case Velocities => hasV
    case Forces => hasF
    case Lambdas => true
  }

  /** Every write of es has a rank in [lo, hi) and the ranks strictly increase along es. */
  ghost predicate OrderedWrites(es: seq<Event>, lo: nat, hi: nat) {
    && (forall p :: 0 <= p < |es| && es[p].WriteBlock? ==> lo <= Rank(es[p].block.kind) < hi)
    && (forall p, q :: 0 <= p < q < |es| && es[p].WriteBlock? && es[q].WriteBlock? ==>
          Rank(es[p].block.kind) < Rank(es[q].block.kind))
  }

  lemma OrderedAppend(a: seq<Event>, b: seq<Event>, lo: nat, mid: nat, hi: nat)
    requires lo <= mid <= hi && OrderedWrites(a, lo, mid) && OrderedWrites(b, mid, hi)
    ensures OrderedWrites(a + b, lo, hi)
  {
    var ab := a + b;
    forall p | 0 <= p < |ab| && ab[p].WriteBlock?
      ensures lo <= Rank(ab[p].block.kind) < hi
    {
      if p < |a| {
        assert ab[p] == a[p];
      } else {
        assert ab[p] == b[p - |a|];
      }
    }
    forall p, q | 0 <= p < q < |ab| && ab[p].WriteBlock? && ab[q].WriteBlock?
      ensures Rank(ab[p].block.kind) < Rank(ab[q].block.kind)
    {
      if q < |a| {
        assert ab[p] == a[p] && ab[q] == a[q];
      } else if p >= |a| {
        assert ab[p] == b[p - |a|] && ab[q] == b[q - |a|];
      } else {
        assert ab[p] == a[p] && ab[q] == b[q - |a|];
      }
    }
  }

  /** The writes of a frame come in the fixed order, each kind at most once, lambdas last. */
  lemma FrameWriteOrder(lossy: bool, step: int, nAtoms: int, nParticles: int, hasX: bool, hasV: bool, hasF: bool)
    ensures var es := FrameEvents(lossy, step, nAtoms, nParticles, hasX, hasV, hasF);
      && |es| > 0 && es[|es| - 1] == Write(step, 1, Lambdas, NonParticleBlockData, GzipCompression)
      && forall p, q :: 0 <= p < q < |es| && es[p].WriteBlock? && es[q].WriteBlock? ==>
           Rank(es[p].block.kind) < Rank(es[q].block.kind)
  {
    var c := ModeCompression(lossy);
    var i, x, v, f, l := ParticleCountEvents(nAtoms, nParticles), PositionWrites(step, c, hasX),
                         VelocityWrites(step, c, hasV), ForceWrites(step, hasF), LambdaWrites(step);
    PiecesOrdered(step, c, nAtoms, nParticles, hasX, hasV, hasF);
    OrderedAppend(i, x, 0, 0, 2);
    OrderedAppend(i + x, v, 0, 2, 3);
    OrderedAppend(i + x + v, f, 0, 3, 4);
    OrderedAppend(i + x + v + f, l, 0, 4, 5);
  }

  /** Each piece of a frame writes only kinds of its own rank range, in order. */
  lemma PiecesOrdered(step: int, c: Compression, nAtoms: int, nParticles: int, hasX: bool, hasV: bool, hasF: bool)
    ensures OrderedWrites(ParticleCountEvents(nAtoms, nParticles), 0, 0)
    ensures OrderedWrites(PositionWrites(step, c, hasX), 0, 2)
    ensures OrderedWrites(VelocityWrites(step, c, hasV), 2, 3)
    ensures OrderedWrites(ForceWrites(step, hasF), 3, 4)
    ensures OrderedWrites(LambdaWrites(step), 4, 5)
  {
  }

  /** The implicit-particle-count event is issued exactly when the counts differ, carries the
      frame's atom count and comes before every write; every other event is a write of this step. */
  lemma FrameParticleCount(lossy: bool, step: int, nAtoms: int, nParticles: int, hasX: bool, hasV: bool, hasF: bool)
    ensures var es := FrameEvents(lossy, step, nAtoms, nParticles, hasX, hasV, hasF);
      && (es[0].SetImplicitParticleCount? <==> nAtoms != ToInt32(nParticles))
      && (es[0].SetImplicitParticleCount? ==> es[0].count == nAtoms)
      && forall p :: 0 < p < |es| ==> es[p].WriteBlock? && es[p].block.step == step
  {
  }

  /** The component count, scope and compression a write of this kind carries. */
  predicate FieldsAsDeclared(w: BlockWrite, lossy: bool) {
    && w.components == (if w.kind == BoxShape then 9 else if w.kind == Lambdas then 1 else 3)
    && (w.scope == ParticleBlockData <==> w.kind in {Positions, Velocities, Forces})
    && (w.kind in {Positions, Velocities} ==> w.compression == ModeCompression(lossy))
    && (w.kind in {BoxShape, Forces, Lambdas} ==> w.compression == GzipCompression)
  }

  ghost predicate AllFieldsAsDeclared(es: seq<Event>, lossy: bool) {
    forall p :: 0 <= p < |es| && es[p].WriteBlock? ==> FieldsAsDeclared(es[p].block, lossy)
  }

  ghost predicate HasWrite(es: seq<Event>, kind: BlockKind) {
    exists p :: 0 <= p < |es| && es[p].WriteBlock? && es[p].block.kind == kind
  }

  lemma AppendWrites(a: seq<Event>, b: seq<Event>, lossy: bool, kind: BlockKind)
    ensures AllFieldsAsDeclared(a + b, lossy) <== AllFieldsAsDeclared(a, lossy) && AllFieldsAsDeclared(b, lossy)
    ensures HasWrite(a + b, kind) <==> HasWrite(a, kind) || HasWrite(b, kind)
  {
    var ab := a + b;
    if HasWrite(ab, kind) {
      var p :| 0 <= p < |ab| && ab[p].WriteBlock? && ab[p].block.kind == kind;
      if p < |a| {
        assert a[p] == ab[p];
      } else {
        assert b[p - |a|] == ab[p];
      }
    }
    if HasWrite(a, kind) {
      var p :| 0 <= p < |a| && a[p].WriteBlock? && a[p].block.kind == kind;
      assert ab[p] == a[p];
    }
    if HasWrite(b, kind) {
      var p :| 0 <= p < |b| && b[p].WriteBlock? && b[p].block.kind == kind;
      assert ab[|a| + p] == b[p];
    }
    if AllFieldsAsDeclared(a, lossy) && AllFieldsAsDeclared(b, lossy) {
      forall p | 0 <= p < |ab| && ab[p].WriteBlock? ensures FieldsAsDeclared(ab[p].block, lossy) {
        if p < |a| {
          assert a[p] == ab[p];
        } else {
          assert b[p - |a|] == ab[p];
        }
      }
    }
  }

  /** A block kind is written exactly when its buffer is present (the box with the positions,
      lambdas always), and every write carries its kind's component count, scope and compression. */
  lemma FrameWriteFields(lossy: bool, step: int, nAtoms: int, nParticles: int, hasX: bool, hasV: bool, hasF: bool,
                         kind: BlockKind)
    ensures var es := FrameEvents(lossy, step, nAtoms, nParticles, hasX, hasV, hasF);
      (exists p :: 0 <= p < |es| && es[p].WriteBlock? && es[p].block.kind == kind) <==> IsWritten(kind, hasX, hasV, hasF)
    ensures var es := FrameEvents(lossy, step, nAtoms, nParticles, hasX, hasV, hasF);
      forall p :: 0 <= p < |es| && es[p].WriteBlock? ==> FieldsAsDeclared(es[p].block, lossy)
  {
    var c := ModeCompression(lossy);
    var i, x, v, f, l := ParticleCountEvents(nAtoms, nParticles), PositionWrites(step, c, hasX),
                         VelocityWrites(step, c, hasV), ForceWrites(step, hasF), LambdaWrites(step);
    PiecesFields(step, lossy, nAtoms, nParticles, hasX, hasV, hasF, kind);
    AppendWrites(i, x, lossy, kind);
    AppendWrites(i + x, v, lossy, kind);
    AppendWrites(i + x + v, f, lossy, kind);
    AppendWrites(i + x + v + f, l, lossy, kind);
  }

  /** Which kinds each piece of a frame writes, and that its writes carry the declared fields. */
  lemma PiecesFields(step: int, lossy: bool, nAtoms: int, nParticles: int, hasX: bool, hasV: bool, hasF: bool,
                     kind: BlockKind)
    ensures var c := ModeCompression(lossy);
      && !HasWrite(ParticleCountEvents(nAtoms, nParticles), kind)
      && AllFieldsAsDeclared(ParticleCountEvents(nAtoms, nParticles), lossy)
      && (HasWrite(PositionWrites(step, c, hasX), kind) <==> hasX && kind in {Positions, BoxShape})
      && AllFieldsAsDeclared(PositionWrites(step, c, hasX), lossy)
      && (HasWrite(VelocityWrites(step, c, hasV), kind) <==> hasV && kind == Velocities)
      && AllFieldsAsDeclared(VelocityWrites(step, c, hasV), lossy)
      && (HasWrite(ForceWrites(step, hasF), kind) <==> hasF && kind == Forces)
      && AllFieldsAsDeclared(ForceWrites(step, hasF), lossy)
      && (HasWrite(LambdaWrites(step), kind) <==> kind == Lambdas)
      && AllFieldsAsDeclared(LambdaWrites(step), lossy)
  {
    PositionFields(step, lossy, hasX, kind);
    VelocityFields(step, lossy, hasV, kind);
    ForceFields(step, lossy, hasF, kind);
    LambdaFields(step, lossy, kind);
  }

  lemma PositionFields(step: int, lossy: bool, hasX: bool, kind: BlockKind)
    ensures var x := PositionWrites(step, ModeCompression(lossy), hasX);
      (HasWrite(x, kind) <==> hasX && kind in {Positions, BoxShape}) && AllFieldsAsDeclared(x, lossy)
  {
    var x := PositionWrites(step, ModeCompression(lossy), hasX);
    if hasX && kind == Positions { assert x[0].block.kind == kind; }
    if hasX && kind == BoxShape { assert x[1].block.kind == kind; }
  }

  lemma VelocityFields(step: int, lossy: bool, hasV: bool, kind: BlockKind)
    ensures var v := VelocityWrites(step, ModeCompression(lossy), hasV);
      (HasWrite(v, kind) <==> hasV && kind == Velocities) && AllFieldsAsDeclared(v, lossy)
  {
    var v := VelocityWrites(step, ModeCompression(lossy), hasV);
    if hasV && kind == Velocities { assert v[0].block.kind == kind; }
  }

  lemma ForceFields(step: int, lossy: bool, hasF: bool, kind: BlockKind)
    ensures var f := ForceWrites(step, hasF);
      (HasWrite(f, kind) <==> hasF && kind == Forces) && AllFieldsAsDeclared(f, lossy)
  {
    var f := ForceWrites(step, hasF);
    if hasF && kind == Forces { assert f[0].block.kind == kind; }
  }

  lemma LambdaFields(step: int, lossy: bool, kind: BlockKind)
    ensures var l := LambdaWrites(step);
      (HasWrite(l, kind) <==> kind == Lambdas) && AllFieldsAsDeclared(l, lossy)
  {
    var l := LambdaWrites(step);
    if kind == Lambdas { assert l[0].block.kind == kind; }
  }
}
