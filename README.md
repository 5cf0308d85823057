# TNG trajectory output of GROMACS, modelled in Dafny

This project models the GROMACS layer that writes molecular-dynamics trajectories in the TNG
format (`src/gromacs/fileio/tngio.cpp`). The layer does four things:

- it validates the file-opening mode;
- it registers the molecular topology as TNG molecules (chains, residues, atoms, and bonds
  deduced from the interaction lists);
- it derives the frame-set length and the per-stream writing intervals from the run's output
  strides;
- for compressed low-precision output, it builds one reduced molecule holding only the atoms
  of the compressed-output selection group, and silences every other molecule.

It then writes frames as a sequence of data blocks.

The trajectory container is a class, `Trajectory.TngTrajectory`, with three fields:

- `molecules`: the molecule catalog;
- `log`: an append-only log of the settings and block writes it received;
- `implicitParticles`: the implicit particle count, once one is set.

The molecule builders are value-level methods that return `Catalog.Molecule` values. The
class methods append those values. A molecule is stored flat, as TNG stores it: chains,
residues that point at their chain, atoms that point at their residue, and bonds.
Find-or-create of a chain or residue is a keyed lookup.

Modules:

- `OpenMode`: the mode check.
- `Events`: the container events.
- `Cadence`: the gcd cadence and the writing intervals.
- `Topology`: the GROMACS topology and the selection group.
- `Catalog`: TNG molecules.
- `TopologyMapper`: molecules for the topology.
- `SelectionGroups`: the reduced selection molecule.
- `FrameWriter`: the blocks of one frame.
- `Trajectory`: the container class and its operations.

Some behaviour of the code is kept exactly as written:

- The selection traversal's outer loop runs over the number of molecule *types*, but it
  indexes molecule *blocks* (`SelectionGroups.Traversed`, `SelectionGroups.TraversedPrefix`).
- Chemical bonds of the selection molecule keep molecule-local atom indices. SETTLE bonds use
  offset (global) indices.
- An atom belongs to the selection when its group number is 0. The group number is 0 for
  every atom when no group table exists.
- A writing interval is configured when its stride is non-zero, including negative strides.
- Topology atoms are added only when the atom table has residues.

## Model

| member | source | states |
|---|---|---|
| OpenMode.ModeToVerb | src/gromacs/fileio/tngio.cpp:60-77 | succeeds exactly for 'r', 'w' and 'a' with a non-empty verb; any other mode is the invalid-mode error carrying that mode |
| OpenMode.ModeToVerbInjective | src/gromacs/fileio/tngio.cpp:60-77 | distinct accepted modes give distinct verbs |
| Cadence.Gcd | src/gromacs/fileio/tngio.cpp:314 | the result is a common divisor of both inputs that every common divisor divides |
| Cadence.GcdIfPositive | src/gromacs/fileio/tngio.cpp:301-315 | -1 when neither input is positive; the positive one when only one is; otherwise their greatest common divisor, at least as large as every common divisor |
| Cadence.LosslessCadence | src/gromacs/fileio/tngio.cpp:335-347 | the lossless cadence is non-positive (then exactly -1) iff no stride is positive; otherwise it divides every positive stride and is the largest number that does |
| Cadence.FrameSetCadence | src/gromacs/fileio/tngio.cpp:333-346 | the cadence: the compressed-output stride in lossy mode, otherwise the gcd-if-positive of the three lossless strides, folded positions-velocities first |
| Cadence.FrameSetEvents | src/gromacs/fileio/tngio.cpp:347-353 | the frame-set setting: none when the cadence is not positive, otherwise cadence times 100 frames |
| Cadence.FrameSetEventsShape | src/gromacs/fileio/tngio.cpp:348-353 | no frame-set event when the cadence is not positive; otherwise exactly one, setting cadence times 100 frames |
| Cadence.StreamIntervalsFields | src/gromacs/fileio/tngio.cpp:382-448 | every configured interval has the stream's non-zero stride, 3/9/1 components, particle scope only for positions, velocities and forces, and GZIP except for positions and velocities, which follow the mode |
| Cadence.StreamIntervalsPresence | src/gromacs/fileio/tngio.cpp:382-448 | each stream is configured once when its stride is non-zero and never otherwise; lossy output never configures velocities or forces |
| Cadence.StreamIntervals | src/gromacs/fileio/tngio.cpp:380-448 | the interval events in issue order: positions, box and lambdas on the position stride, then velocities, then forces, each run only when its stride is non-zero (velocities and forces zeroed in lossy mode) |
| Cadence.WritingIntervalEvents | src/gromacs/fileio/tngio.cpp:358-448 | everything set_writing_intervals issues: the frame-set setting, then the stream intervals |
| Cadence.IntervalCountAppend | src/gromacs/fileio/tngio.cpp:380-448 | interval counts add up over concatenated event logs |
| Catalog.FindChain | src/gromacs/fileio/tngio.cpp:213-215 | finds an index of a chain with that name, or reports that none has it |
| Catalog.FindResidue | src/gromacs/fileio/tngio.cpp:223-225 | finds an index of the residue with that chain, name and number, or reports that none has it |
| Catalog.FindOrAddChain | src/gromacs/fileio/tngio.cpp:213-219 | returns the existing chain unchanged, or appends the named chain; the molecule stays valid and extends the old one |
| Catalog.FindOrAddResidue | src/gromacs/fileio/tngio.cpp:223-228 | returns the existing residue unchanged, or appends it to the chain; the molecule stays valid and extends the old one |
| Catalog.AddAtom | src/gromacs/fileio/tngio.cpp:229 | appends exactly one atom in the given residue and keeps everything else |
| Catalog.AddBond | src/gromacs/fileio/tngio.cpp:275 | appends exactly that bond after the existing ones; name, chains, residues, atoms and count are unchanged |
| Catalog.ResiduesByFirstAtom | src/gromacs/fileio/tngio.cpp:221-229 | every residue is used by some atom and residues are listed in the order of their first atom, since a residue is created only when an atom's lookup misses |
| Catalog.ChainsByFirstResidue | src/gromacs/fileio/tngio.cpp:213-228 | every chain holds a residue and chains are listed in the order of their first residue, since a chain is created only when an atom's lookup misses and its residue follows at once |
| Catalog.AddAtomByFirstUse | src/gromacs/fileio/tngio.cpp:223-229 | residue find-or-create followed by the atom add keeps the residues in first-use order |
| Catalog.AddResidueByFirstUse | src/gromacs/fileio/tngio.cpp:213-228 | chain find-or-create followed by residue find-or-create in that chain keeps the chains in first-use order: a new chain always gets a new residue |
| Catalog.ZeroCounts | src/gromacs/fileio/tngio.cpp:628-637 | every molecule with its count set to 0 and nothing else changed |
| Catalog.ReducedCatalogParticles | src/gromacs/fileio/tngio.cpp:624-637 | after zeroing every count and adding one molecule of count 1, the particle count is that molecule's atom count |
| TopologyMapper.ChainName | src/gromacs/fileio/tngio.cpp:208 | the C string {chainid, 0}: the empty name exactly for a NUL chain id, else the id alone |
| TopologyMapper.AddMoleculeFromTopology | src/gromacs/fileio/tngio.cpp:187-233 | a molecule of that name and count without bonds, whose atoms are the type's atoms in order, each with its name, type, no explicit id, and the residue and chain of its residue entry, numbered resind+1; no chain or residue beyond those the atoms use, in first-use order; no atoms when the table has no residues |
| TopologyMapper.AddTopologyAtom | src/gromacs/fileio/tngio.cpp:205-230 | one more atom, and every atom so far, including the new one, sits in the residue keyed by its residue's name and index + 1 inside the chain named by that residue's chain id; earlier chains, residues and atoms keep their places, name, bonds and count are unchanged, and chains and residues stay in first-use order |
| TopologyMapper.HoldsAtomsFrame | src/gromacs/fileio/tngio.cpp:232 | setting count or bonds keeps the registered atoms |
| TopologyMapper.ChemBondPairsAt | src/gromacs/fileio/tngio.cpp:270-277 | the k-th chemical bond connects entries 3k+1 and 3k+2 of the interaction list |
| TopologyMapper.SettlePairsAt | src/gromacs/fileio/tngio.cpp:282-291 | SETTLE entry k gives two bonds, from its first atom to its second and to its third |
| TopologyMapper.ChemBondPairs | src/gromacs/fileio/tngio.cpp:270-277 | the bonds of the first n entries of a chemical-bond list, one per entry, between its two atoms (ChemBondPairsAt) |
| TopologyMapper.SettlePairs | src/gromacs/fileio/tngio.cpp:282-291 | the bonds of the first n SETTLE entries, two per entry, from the oxygen to each hydrogen (SettlePairsAt) |
| TopologyMapper.DeducedBonds | src/gromacs/fileio/tngio.cpp:264-292 | the bonds deduced for a molecule type: the chemical-bond lists in function-type order, then SETTLE |
| TopologyMapper.AddDeducedBonds | src/gromacs/fileio/tngio.cpp:264-292 | appends the chemical-bond pairs of every chemical-bond list in order, then the SETTLE pairs; chains, residues, atoms and count are unchanged |
| TopologyMapper.AddChemBonds | src/gromacs/fileio/tngio.cpp:270-277 | appends the pairs (entry 3k+1, entry 3k+2) of one chemical-bond list in order and changes nothing but the bonds |
| TopologyMapper.AddSettleBonds | src/gromacs/fileio/tngio.cpp:282-291 | appends the two bonds of every SETTLE entry in order and changes nothing but the bonds |
| TopologyMapper.MoleculeForBlock | src/gromacs/fileio/tngio.cpp:248-293 | the molecule of one block: its type's name, atoms and deduced bonds, and the block's molecule count |
| Topology.SelectedIndicesSpec | src/gromacs/fileio/tngio.cpp:528-536 | the selected global indices below n are exactly those in range whose group number is 0, in strictly increasing order |
| Topology.GroupNr | src/gromacs/fileio/tngio.cpp:533 | ggrpnr for the compressed-output group: the stored group number, 0 when no numbers are stored |
| Topology.FlatAtomOf | src/gromacs/fileio/tngio.cpp:538-550 | the names an atom is registered with: its name and type, and its residue's name and index + 1, or "" and 0 without residues |
| Topology.InstanceInside | src/gromacs/fileio/tngio.cpp:519-528 | each instance's atoms extend the traversal by that type's atoms, in order, inside the block and the system |
| SelectionGroups.TraversedPrefix | src/gromacs/fileio/tngio.cpp:519-525 | the traversal covers a prefix of the system's atoms, all of them when there are as many blocks as types |
| SelectionGroups.Traversed | src/gromacs/fileio/tngio.cpp:519-528 | the atoms the selection loop walks: those of the first nmoltype molecule blocks |
| SelectionGroups.KeepSelected | src/gromacs/fileio/tngio.cpp:580-582 | the bonds whose endpoints, shifted by the offset, are both selected, in order (KeepSelectedMembers) |
| SelectionGroups.InstanceSelectedBonds | src/gromacs/fileio/tngio.cpp:564-615 | one instance's bonds: kept chemical bonds in local indices, then kept SETTLE bonds in global indices |
| SelectionGroups.SelectionBondsOfBlocks | src/gromacs/fileio/tngio.cpp:519-619 | the bonds of the first b blocks, from each instance that had an atom selected |
| SelectionGroups.SelectInstanceAtoms | src/gromacs/fileio/tngio.cpp:527-563 | one instance adds exactly its selected atoms, each with its global id, name, type and a residue of the single chain; it reports whether any was added |
| SelectionGroups.SelectBlock | src/gromacs/fileio/tngio.cpp:524-620 | after all instances of block b the molecule holds the selected atoms of the first b+1 traversed blocks and their contributing instances' bonds, with the index advanced past the block |
| SelectionGroups.SelectInstance | src/gromacs/fileio/tngio.cpp:526-619 | one instance extends the held atoms by its selected ones, appends its selected bonds only when one of its atoms was added, and advances the offset by the type's atom count |
| SelectionGroups.SelectAtom | src/gromacs/fileio/tngio.cpp:528-562 | the atom is added, with its global index as id, exactly when it is selected; earlier residues and atoms keep their places, a residue is created only for this atom, and the molecule then holds the selected atoms of the traversal extended by this one |
| SelectionGroups.AnySelectedSpec | src/gromacs/fileio/tngio.cpp:527-565 | an instance contributes atoms iff one of its global indices is selected |
| SelectionGroups.AddInstanceBonds | src/gromacs/fileio/tngio.cpp:564-615 | appends the instance's selected bonds (kept chemical bonds, then kept SETTLE bonds) and changes nothing but the bonds |
| SelectionGroups.AddChemSelectedLists | src/gromacs/fileio/tngio.cpp:567-590 | appends the kept chemical bonds of every chemical-bond list, in list order, and changes nothing but the bonds |
| SelectionGroups.AddChemSelected | src/gromacs/fileio/tngio.cpp:574-587 | appends, in order, the local-index pairs of one list whose offset atoms are both selected |
| SelectionGroups.AddChemPair | src/gromacs/fileio/tngio.cpp:578-585 | the local-index bond is appended exactly when both offset atoms are selected |
| SelectionGroups.AddSettleSelected | src/gromacs/fileio/tngio.cpp:592-616 | appends, in order, the offset-index oxygen-hydrogen bonds of the SETTLE list whose two atoms are selected |
| SelectionGroups.AddSettleTuple | src/gromacs/fileio/tngio.cpp:599-614 | with the oxygen selected, each oxygen-hydrogen bond is appended iff that hydrogen is selected; nothing when the oxygen is not |
| SelectionGroups.KeepSelectedAppend | src/gromacs/fileio/tngio.cpp:564-615 | the bond filter distributes over concatenation, so the per-list and per-tuple steps compose |
| SelectionGroups.KeepSelectedMembers | src/gromacs/fileio/tngio.cpp:580-582 | a bond survives the filter iff it is among the candidates and both of its shifted endpoints are selected |
| SelectionGroups.ChemSelectedTuple | src/gromacs/fileio/tngio.cpp:574-587 | tuple k's bond, in local indices, is in the kept chemical bonds iff both its offset atoms are selected |
| SelectionGroups.SettleSelectedTuple | src/gromacs/fileio/tngio.cpp:595-616 | each oxygen-hydrogen bond of SETTLE tuple k, in global indices, is kept iff the oxygen and that hydrogen are selected, whatever the other hydrogen |
| SelectionGroups.KeepSelectedAll | src/gromacs/fileio/tngio.cpp:580-582 | when every atom is selected the filter keeps every bond |
| SelectionGroups.ShiftedAt | src/gromacs/fileio/tngio.cpp:599-601 | the k-th SETTLE bond of the selection has both endpoints moved by the instance's atom offset |
| SelectionGroups.FullSelectionBonds | src/gromacs/fileio/tngio.cpp:564-615 | when every atom is selected, an instance's chemical bonds are the topology's and its SETTLE bonds are the topology's shifted by the offset |
| SelectionGroups.SelectionMolecule | src/gromacs/fileio/tngio.cpp:511-618 | the group-named molecule with one chain "", exactly the selected traversed atoms in order, no residue beyond those they use, in first-use order, and the bonds of contributing instances; nAtoms is its atom count and i the traversal length |
| FrameWriter.ToInt32 | src/gromacs/fileio/tngio.cpp:712 | the 32-bit signed value congruent to the count modulo 2^32, equal to it when it fits |
| FrameWriter.FrameEvents | src/gromacs/fileio/tngio.cpp:711-787 | one frame's events: the implicit-count update when the counts differ, then positions with the box, velocities, forces and lambdas |
| FrameWriter.FrameWriteOrder | src/gromacs/fileio/tngio.cpp:728-787 | the writes come in the order positions, box, velocities, forces, lambdas, each at most once, with lambdas last |
| FrameWriter.FrameParticleCount | src/gromacs/fileio/tngio.cpp:711-715 | the implicit-count update comes first, exactly when the counts differ after the cast, and carries the frame's atom count; all later events are writes of this step |
| FrameWriter.FrameWriteFields | src/gromacs/fileio/tngio.cpp:716-787 | a kind is written iff its buffer is present (box with positions, lambdas always), with 3/9/1 components, its scope, and GZIP except positions and velocities, which follow the mode |
| Trajectory.TngTrajectory.constructor | src/gromacs/fileio/tngio.cpp:79-162 | a fresh container with no molecules, an empty log and no implicit count |
| Trajectory.TngTrajectory.NumParticles | src/gromacs/fileio/tngio.cpp:711 | tng_num_particles_get: the implicit count once set, otherwise count times atoms summed over the catalog |
| Trajectory.SelectionApplied | src/gromacs/fileio/tngio.cpp:622-640 | the catalog change of the selection step: none for a full selection, else every count 0 and the selection molecule appended with count 1 |
| Trajectory.TngTrajectory.AddMtop | src/gromacs/fileio/tngio.cpp:235-293 | nothing without a topology; otherwise the old molecules followed by one molecule per block that represents it, with log and count untouched |
| Trajectory.TngTrajectory.SetFramesPerFrameSet | src/gromacs/fileio/tngio.cpp:329-356 | appends exactly the frame-set events of the cadence |
| Trajectory.TngTrajectory.SetWritingIntervals | src/gromacs/fileio/tngio.cpp:358-448 | appends the frame-set events, then the stream intervals |
| Trajectory.TngTrajectory.AddSelectionGroups | src/gromacs/fileio/tngio.cpp:493-641 | unchanged when every traversed atom is selected; otherwise the catalog with all counts zeroed plus the selection molecule with count 1, so the particle count is the selection's atom count |
| Trajectory.TngTrajectory.PrepareMdWriting | src/gromacs/fileio/tngio.cpp:475-482 | the topology's block molecules appended (nothing without a topology), then exactly the lossless intervals logged; the implicit count is untouched |
| Trajectory.TngTrajectory.PrepareLowPrecWriting | src/gromacs/fileio/tngio.cpp:655-670 | the block molecules are appended; then the selection step turns that catalog into the selection outcome (all counts 0 and the selection molecule with count 1 when the group is partial, unchanged otherwise); then the lossy intervals are logged; the implicit count is untouched |
| Trajectory.WriteFrame | src/gromacs/fileio/tngio.cpp:672-787 | nothing without a handle; otherwise logs the frame's events and sets the implicit count iff the counts differ, after which the container's count agrees with the frame |

## Left out

- Opening and closing the file (`gmx_tng_open`, `gmx_tng_close`) are left out. This includes
  the file-system access, the program and user metadata, and the fatal error on a failed open.
  The constructor of `Trajectory.TngTrajectory` stands for a freshly opened container.
- Floating point is left out: the time per frame set, the compression precision
  (`gmx_tng_set_compression_precision`), the elapsed time passed with each write, the value
  payloads of the blocks, and `gmx_tng_get_time_of_final_frame`.
- `fflush_tng` is left out because it only performs I/O.
- Block label strings and TNG block identifiers are represented by `Events.BlockKind`.
- The double-precision variants of the writing functions differ only in the floating-point
  type, which is not modelled.
- Failures reported by the container (`gmx_file` on a failed molecule add or block write) are
  left out. Every container call is modelled as succeeding.
- `gmx_greatest_common_divisor` is not part of this model. `Cadence.Gcd` is Euclid's algorithm
  and is specified by the defining property of the greatest common divisor.
- Cadence.FrameSetEventsShape: the product cadence times 100 is unbounded. The 32-bit signed
  overflow of `gcd * defaultFramesPerFrameSet` for huge strides is not modelled.
- The commented-out lambda-cadence code in `set_writing_intervals` does nothing and is not
  modelled.
- Inside TNG, `tng_implicit_num_particles_set` maintains a hidden molecule. Here it is
  abstracted to a container count that overrides the catalog's own count. Without that
  override, `NumParticles` is the sum of count times atoms over the catalog.
- TNG assigns residue identifiers itself, and `tng_chain_residue_add` takes no id. The model
  stores the lookup key (resind + 1, or the selection's res_id) as the residue's id, so a
  repeated key always finds the residue created for it. Whether TNG's own numbering agrees with
  the key that `tng_chain_residue_find` is given is not modelled. Atom identifiers are modelled
  only as the explicit ids of the selection molecule.
- The topology operations require well-formed input, because the source reads out of bounds
  on anything else. Residue and type indices must be in range. Each interaction list must be
  whole entries of type plus atoms, with atoms of its own type. For the selection, there must
  be at least as many molecule blocks as molecule types, and group numbers for every atom
  when a group table exists.
- Which interaction types are chemical bonds (`IS_CHEMBOND`) and the index of SETTLE are
  parameters (`Topology.FunctionTable`), because the interaction-function table is not part
  of this model.
- WriteFrame: a missing box with present positions is a debug assertion in the source. It is
  a precondition here, so that branch is not modelled.
- Builds without TNG support are left out. There, opening fails through `gmx_file` and every
  other call does nothing (the `#else` branches, for example `src/gromacs/fileio/tngio.cpp:163-168` and 483-487).
