/** The open TNG trajectory handle and the tngio operations that change it. */
module Trajectory {
  import opened Wrappers
  import opened Topology
  import opened Catalog
  import opened Events
  import opened Cadence
  import opened TopologyMapper
  import opened SelectionGroups
  import opened FrameWriter

  /** after is before followed by one molecule per block of top, each representing its block. */
  predicate AddedBlocks(before: seq<Molecule>, after: seq<Molecule>, top: Topology, table: FunctionTable) {
    && |after| >= |before|
    && after[..|before|] == before
    && RepresentsBlocks(after[|before|..], top, table)
  }

  /** The compressed-output group leaves out at least one traversed atom. */
  predicate PartialSelection(top: Topology)
    requires AtomsValid(top) && |top.moltype| <= |top.molblock|
  {
    |SelectedIndices(top, |Traversed(top)|)| != |Traversed(top)|
  }

  /** The catalog change of add_selection_groups: none for a full selection; otherwise every
      count zeroed and the selection molecule appended with count 1, which then holds every
      particle. */
  predicate SelectionApplied(before: seq<Molecule>, after: seq<Molecule>, top: Topology, table: FunctionTable)
    requires ValidSelectionTopology(top, table)
  {
    if !PartialSelection(top) then after == before
    else
      && |after| == |before| + 1
      && after[..|before|] == ZeroCounts(before)
      && SelectionLast(after, top, table)
      && CatalogParticles(after) == |after[|before|].atoms|
  }

  /** The last molecule of the catalog is the selection molecule with count 1. */
  predicate SelectionLast(cat: seq<Molecule>, top: Topology, table: FunctionTable) {
    && |cat| > 0
    && IsSelectionMolecule(cat[|cat| - 1], top, table)
    && cat[|cat| - 1].count == 1
  }

  /** What the GROMACS side can observe of a TNG container: its molecule catalog, the ordered
      log of settings and block writes it received, and the implicit particle count if one
      was set. */
  class TngTrajectory {
    var molecules: seq<Molecule>
    var log: seq<Event>
    var implicitParticles: Option<int>

    /** A freshly opened container: no molecules, nothing written. */
    constructor ()
      ensures molecules == [] && log == [] && implicitParticles == None
    {
      molecules := [];
      log := [];
      implicitParticles := None;
    }

    /** The particle count the container reports: the implicit count once one was set,
        otherwise the atoms of every molecule times its count. */
    function NumParticles(): int
      reads this
    {
      match implicitParticles
      case Some(n) => n
      case None => CatalogParticles(molecules)
    }

    /** gmx_tng_add_mtop: without a topology nothing changes; otherwise one molecule per
        molecule block, in block order, appended after the existing ones. */
    method AddMtop(mtop: Option<Topology>, table: FunctionTable)
      requires mtop.Some? ==> ValidTopology(mtop.value, table)
      modifies this
      ensures log == old(log) && implicitParticles == old(implicitParticles)
      ensures mtop.None? ==> molecules == old(molecules)
      ensures mtop.Some? ==> AddedBlocks(old(molecules), molecules, mtop.value, table)
    {
      if mtop.None? {
        return;
      }
      var top := mtop.value;
      var b := 0;
      ghost var added := [];
      while b < |top.molblock|
        invariant 0 <= b <= |top.molblock| && |added| == b
        invariant log == old(log) && implicitParticles == old(implicitParticles)
        invariant molecules == old(molecules) + added
        invariant forall c :: 0 <= c < b ==> RepresentsBlock(added[c], top, table, c)
      {
        var m := MoleculeForBlock(top, table, b);
        molecules := molecules + [m];
        added := added + [m];
        b := b + 1;
      }
      assert molecules[|old(molecules)|..] == added;
    }

    /** tng_set_frames_per_frame_set: sets the frame-set length from the output cadence,
        or leaves the default when no output happens. */
    method SetFramesPerFrameSet(lossy: bool, ir: InputRec)
      modifies this
      ensures log == old(log) + FrameSetEvents(lossy, ir)
      ensures molecules == old(molecules) && implicitParticles == old(implicitParticles)
    {
      var gcd := -1;
      if lossy {
        gcd := ir.nstxoutCompressed;
      } else {
        gcd := GcdIfPositive(ir.nstxout, ir.nstvout);
        gcd := GcdIfPositive(gcd, ir.nstfout);
      }
      if 0 >= gcd {
        return;
      }
      log := log + [Event.SetFramesPerFrameSet(gcd * DefaultFramesPerFrameSet)];
    }

    /** set_writing_intervals: the frame-set length, then one writing interval per enabled
        stream (positions with box and lambdas, velocities, forces). */
    method SetWritingIntervals(lossy: bool, ir: InputRec)
      modifies this
      ensures log == old(log) + WritingIntervalEvents(lossy, ir)
      ensures molecules == old(molecules) && implicitParticles == old(implicitParticles)
    {
      SetFramesPerFrameSet(lossy, ir);
      var xout, vout, fout;
      var compression;
      if lossy {
        xout := ir.nstxoutCompressed;
        vout := 0;
        fout := 0;
        compression := TngCompression;
      } else {
        xout := ir.nstxout;
        vout := ir.nstvout;
        fout := ir.nstfout;
        compression := GzipCompression;
      }
      if xout != 0 {
        log := log + [SetInterval(WritingInterval(xout, 3, Positions, ParticleBlockData, compression))];
        log := log + [SetInterval(WritingInterval(xout, 9, BoxShape, NonParticleBlockData, GzipCompression))];
        log := log + [SetInterval(WritingInterval(xout, 1, Lambdas, NonParticleBlockData, GzipCompression))];
      }
      if vout != 0 {
        log := log + [SetInterval(WritingInterval(ir.nstvout, 3, Velocities, ParticleBlockData, compression))];
      }
      if fout != 0 {
        log := log + [SetInterval(WritingInterval(ir.nstfout, 3, Forces, ParticleBlockData, GzipCompression))];
      }
    }

    /** add_selection_groups: when the compressed-output group leaves out some traversed atom,
        appends the reduced molecule with count 1 and sets every other molecule's count to 0;
        otherwise the catalog is unchanged. */
    method AddSelectionGroups(top: Topology, table: FunctionTable)
      requires ValidSelectionTopology(top, table)
      modifies this
      ensures log == old(log) && implicitParticles == old(implicitParticles)
      ensures SelectionApplied(old(molecules), molecules, top, table)
    {
      var mol, nAtoms, i := SelectionMolecule(top, table);
      if nAtoms != i {
        var n := |molecules|;
        HoldsSelectedFrame(mol, mol.(count := 1), top, Traversed(top));
        molecules := molecules + [mol.(count := 1)];
        var k := 0;
        while k < n
          invariant 0 <= k <= n && |molecules| == n + 1
          invariant log == old(log) && implicitParticles == old(implicitParticles)
          invariant forall c :: 0 <= c < k ==> molecules[c] == old(molecules)[c].(count := 0)
          invariant forall c :: k <= c < n ==> molecules[c] == old(molecules)[c]
          invariant molecules[n] == mol.(count := 1)
        {
          molecules := molecules[k := molecules[k].(count := 0)];
          k := k + 1;
        }
        assert molecules == ZeroCounts(old(molecules)) + [mol.(count := 1)];
        ReducedCatalogParticles(old(molecules), mol);
      }
    }

    /** gmx_tng_prepare_md_writing: the topology, then the lossless writing intervals. */
    method PrepareMdWriting(mtop: Option<Topology>, table: FunctionTable, ir: InputRec)
      requires mtop.Some? ==> ValidTopology(mtop.value, table)
      modifies this
      ensures log == old(log) + WritingIntervalEvents(false, ir)
      ensures implicitParticles == old(implicitParticles)
      ensures mtop.None? ==> molecules == old(molecules)
      ensures mtop.Some? ==> AddedBlocks(old(molecules), molecules, mtop.value, table)
    {
      AddMtop(mtop, table);
      SetWritingIntervals(false, ir);
    }

    /** gmx_tng_prepare_low_prec_writing: the topology, the selection molecule, then the
        lossy writing intervals; withBlocks is the catalog between the first two steps. */
    method PrepareLowPrecWriting(top: Topology, table: FunctionTable, ir: InputRec)
      returns (ghost withBlocks: seq<Molecule>)
      requires ValidSelectionTopology(top, table)
      modifies this
      ensures log == old(log) + WritingIntervalEvents(true, ir)
      ensures implicitParticles == old(implicitParticles)
      ensures AddedBlocks(old(molecules), withBlocks, top, table)
      ensures SelectionApplied(withBlocks, molecules, top, table)
    {
      AddMtop(Some(top), table);
      withBlocks := molecules;
      AddSelectionGroups(top, table);
      SetWritingIntervals(true, ir);
    }
  }

  /** gmx_fwrite_tng: nothing without a handle; otherwise the implicit particle count is
      updated when the frame's atom count differs from the container's (compared after the
      32-bit cast), then the present buffers are written, lambdas last. Afterwards the container's
      count agrees with the frame, so the next frame of the same size changes no count. */
  method WriteFrame(tng: TngTrajectory?, lossy: bool, step: int, nAtoms: int,
                    hasBox: bool, hasX: bool, hasV: bool, hasF: bool)
    requires hasX ==> hasBox
    modifies tng
    ensures tng != null ==>
      && tng.log == old(tng.log) + FrameEvents(lossy, step, nAtoms, old(tng.NumParticles()), hasX, hasV, hasF)
      && tng.molecules == old(tng.molecules)
      && tng.implicitParticles ==
           if nAtoms != ToInt32(old(tng.NumParticles())) then Some(nAtoms) else old(tng.implicitParticles)
    ensures tng != null && -0x8000_0000 <= nAtoms < 0x8000_0000 ==> ToInt32(tng.NumParticles()) == nAtoms
  {
    if tng == null {
      return;
    }
    var nParticles := tng.NumParticles();
    var events := [];
    var implicitCount := tng.implicitParticles;
    if nAtoms != ToInt32(nParticles) {
      implicitCount := Some(nAtoms);
      events := [SetImplicitParticleCount(nAtoms)];
    }
    ghost var counts := events;
    assert counts == ParticleCountEvents(nAtoms, nParticles);
    var compression := ModeCompression(lossy);
    if hasX {
      events := events + [Write(step, 3, Positions, ParticleBlockData, compression),
                          Write(step, 9, BoxShape, NonParticleBlockData, GzipCompression)];
    }
    assert events == counts + PositionWrites(step, compression, hasX);
    if hasV {
      events := events + [Write(step, 3, Velocities, ParticleBlockData, compression)];
    }
    assert events == counts + PositionWrites(step, compression, hasX) + VelocityWrites(step, compression, hasV);
    if hasF {
      events := events + [Write(step, 3, Forces, ParticleBlockData, GzipCompression)];
    }
    assert events == counts + PositionWrites(step, compression, hasX) + VelocityWrites(step, compression, hasV)
                     + ForceWrites(step, hasF);
    events := events + [Write(step, 1, Lambdas, NonParticleBlockData, GzipCompression)];
    tng.log, tng.implicitParticles := tng.log + events, implicitCount;
  }
}
