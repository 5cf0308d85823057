/** The full-system mapping of a topology into the container catalog
    (addTngMoleculeFromTopology and gmx_tng_add_mtop). */
module TopologyMapper {
  import opened Wrappers
  import opened Topology
  import opened Catalog

  /** The C string {chainid, 0}: empty when the chain identifier is the NUL character. */
  function ChainName(chainId: char): (s: string)
    ensures |s| <= 1
    ensures chainId == '\0' ==> s == ""
    ensures chainId != '\0' ==> s == [chainId]
  {
    if chainId == '\0' then "" else [chainId]
  }

  /** Atom k of the molecule is atom k of the type, in the residue keyed by the type's residue
      name and index + 1, in the chain named by that residue's chain identifier. */
  predicate AtomPlaced(m: Molecule, k: nat, atoms: Atoms) {
    && Valid(m) && ValidAtoms(atoms) && |atoms.resinfo| > 0
    && k < |m.atoms| && k < |atoms.atom|
    && var a := atoms.atom[k];
       var info := atoms.resinfo[a.resind];
       && m.atoms[k] == Atom(m.atoms[k].residue, a.name, a.atomType, None)
       && ResidueOf(m, k).name == info.name
       && ResidueOf(m, k).id == a.resind + 1
       && ChainOf(m, k).name == ChainName(info.chainId)
  }

  /** The molecule holds the type's atoms, placed as above, and no chain or residue besides those
      they use, in first-use order; no atoms when the type has no residues. */
  predicate HoldsAtoms(m: Molecule, atoms: Atoms) {
    && Valid(m)
    && ResiduesByFirstAtom(m) && ChainsByFirstResidue(m)
    && |m.atoms| == (if |atoms.resinfo| > 0 then |atoms.atom| else 0)
    && forall k :: 0 <= k < |m.atoms| ==> AtomPlaced(m, k, atoms)
  }

  /** addTngMoleculeFromTopology: declares the molecule, places every atom in its chain and
      residue (find-or-create) and sets the instance count. */
  method AddMoleculeFromTopology(name: string, atoms: Atoms, numMolecules: int) returns (m: Molecule)
    requires ValidAtoms(atoms)
    ensures m.name == name && m.count == numMolecules && m.bonds == []
    ensures HoldsAtoms(m, atoms)
  {
    m := EmptyMolecule(name);
    var atomIt := 0;
    while atomIt < |atoms.atom|
      invariant 0 <= atomIt <= |atoms.atom|
      invariant Valid(m) && m.name == name && m.bonds == []
      invariant ResiduesByFirstAtom(m) && ChainsByFirstResidue(m)
      invariant |m.atoms| == if |atoms.resinfo| > 0 then atomIt else 0
      invariant forall k :: 0 <= k < |m.atoms| ==> AtomPlaced(m, k, atoms)
    {
      if |atoms.resinfo| > 0 {
        m := AddTopologyAtom(m, atoms, atomIt);
      }
      atomIt := atomIt + 1;
    }
    HoldsAtomsFrame(m, m.(count := numMolecules), atoms);
    m := m.(count := numMolecules);
  }

  /** The body of the atom loop: atom atomIt goes into the residue keyed by its residue's name and
      index + 1, inside the chain named by that residue's chain identifier. */
  method AddTopologyAtom(m: Molecule, atoms: Atoms, atomIt: nat) returns (next: Molecule)
    requires ValidAtoms(atoms) && |atoms.resinfo| > 0 && atomIt < |atoms.atom|
    requires Valid(m) && |m.atoms| == atomIt
    requires forall k :: 0 <= k < |m.atoms| ==> AtomPlaced(m, k, atoms)
    requires ResiduesByFirstAtom(m) && ChainsByFirstResidue(m)
    ensures Valid(next) && Extends(m, next) && |next.atoms| == atomIt + 1
    ensures forall k :: 0 <= k < |next.atoms| ==> AtomPlaced(next, k, atoms)
    ensures ResiduesByFirstAtom(next) && ChainsByFirstResidue(next)
  {
    var at := atoms.atom[atomIt];
    var resInfo := atoms.resinfo[at.resind];
    var chain := FindOrAddChain(m, ChainName(resInfo.chainId));
    var res := FindOrAddResidue(chain.mol, chain.index, resInfo.name, at.resind + 1);
    next := AddAtom(res.mol, res.index, at.name, at.atomType, None);
    AddResidueByFirstUse(m, ChainName(resInfo.chainId), resInfo.name, at.resind + 1);
    ChainsByFirstResidueFrame(res.mol, next);
    ResiduesByFirstAtomFrame(m, chain.mol);
    AddAtomByFirstUse(chain.mol, chain.index, resInfo.name, at.resind + 1, at.name, at.atomType, None);
    forall k | 0 <= k < |m.atoms| ensures AtomPlaced(next, k, atoms) {
      assert AtomPlaced(m, k, atoms);
    }
  }

  /** Placement depends only on the chains, residues and atoms. */
  lemma HoldsAtomsFrame(m: Molecule, r: Molecule, atoms: Atoms)
    requires HoldsAtoms(m, atoms)
    requires r.chains == m.chains && r.residues == m.residues && r.atoms == m.atoms
    ensures HoldsAtoms(r, atoms)
  {
    forall k | 0 <= k < |r.atoms| ensures AtomPlaced(r, k, atoms) {
      assert AtomPlaced(m, k, atoms);
    }
    ResiduesByFirstAtomFrame(m, r);
    ChainsByFirstResidueFrame(m, r);
  }

  /** The bonds of the first n tuples [parameter, atom 1, atom 2] of a chemical-bond list. */
  function ChemBondPairs(l: seq<int>, n: nat): (r: seq<Bond>)
    requires 3 * n <= |l|
    ensures |r| == n
  {
    if n == 0 then [] else ChemBondPairs(l, n - 1) + [Bond(l[3 * n - 2], l[3 * n - 1])]
  }

  /** Tuple k of a chemical-bond list yields the bond (iatoms[3k+1], iatoms[3k+2]). */
  lemma {:induction false} ChemBondPairsAt(l: seq<int>, n: nat, k: nat)
    requires 3 * n <= |l| && k < n
    ensures ChemBondPairs(l, n)[k] == Bond(l[3 * k + 1], l[3 * k + 2])
  {
    if k < n - 1 {
      ChemBondPairsAt(l, n - 1, k);
    }
  }

  /** The bonds of the first n tuples [parameter, O, H1, H2] of the SETTLE list: O-H1 and O-H2. */
  function SettlePairs(l: seq<int>, n: nat): (r: seq<Bond>)
    requires 4 * n <= |l|
    ensures |r| == 2 * n
  {
    if n == 0 then []
    else SettlePairs(l, n - 1) + [Bond(l[4 * n - 3], l[4 * n - 2]), Bond(l[4 * n - 3], l[4 * n - 1])]
  }

  /** Tuple k of the SETTLE list yields (O, H1) then (O, H2), and never a bond from a
      hydrogen slot: both bonds start at the oxygen iatoms[4k+1]. */
  lemma {:induction false} SettlePairsAt(l: seq<int>, n: nat, k: nat)
    requires 4 * n <= |l| && k < n
    ensures SettlePairs(l, n)[2 * k] == Bond(l[4 * k + 1], l[4 * k + 2])
    ensures SettlePairs(l, n)[2 * k + 1] == Bond(l[4 * k + 1], l[4 * k + 3])
  {
    if k < n - 1 {
      SettlePairsAt(l, n - 1, k);
    }
  }

  /** The chemical bonds of the function types below i, in function-type order. */
  function ChemBondsUpTo(ilist: seq<seq<int>>, table: FunctionTable, i: nat): seq<Bond>
    requires ListsShaped(ilist, table) && i <= |ilist|
  {
    if i == 0 then []
    else ChemBondsUpTo(ilist, table, i - 1)
         + (if table.chemBond[i - 1] then ChemBondPairs(ilist[i - 1], |ilist[i - 1]| / 3) else [])
  }

  /** Every bond the mapping deduces for a molecule type: all chemical bonds, then SETTLE's. */
  function DeducedBonds(mt: MolType, table: FunctionTable): seq<Bond>
    requires ListsShaped(mt.ilist, table)
  {
    var settle := mt.ilist[table.settle];
    ChemBondsUpTo(mt.ilist, table, |mt.ilist|) + SettlePairs(settle, |settle| / 4)
  }

  /** The bond-deduction loops of gmx_tng_add_mtop: stride 3 over chemical-bond lists, stride 4
      over the SETTLE list. */
  method AddDeducedBonds(m: Molecule, mt: MolType, table: FunctionTable) returns (r: Molecule)
    requires ListsShaped(mt.ilist, table)
    ensures SameButBonds(m, r) && r.bonds == m.bonds + DeducedBonds(mt, table)
  {
    r := m;
    var i := 0;
    while i < |table.chemBond|
      invariant 0 <= i <= |table.chemBond|
      invariant SameButBonds(m, r) && r.bonds == m.bonds + ChemBondsUpTo(mt.ilist, table, i)
    {
      if table.chemBond[i] {
        ghost var pairs := ChemBondPairs(mt.ilist[i], |mt.ilist[i]| / 3);
        r := AddChemBonds(r, mt.ilist[i]);
        AppendBondsTwice(m.bonds, ChemBondsUpTo(mt.ilist, table, i), pairs);
      }
      i := i + 1;
    }
    var settle := mt.ilist[table.settle];
    r := AddSettleBonds(r, settle);
    AppendBondsTwice(m.bonds, ChemBondsUpTo(mt.ilist, table, |mt.ilist|), SettlePairs(settle, |settle| / 4));
  }

  /** The stride-3 walk of one chemical-bond list. */
  method AddChemBonds(m: Molecule, ilist: seq<int>) returns (r: Molecule)
    requires WellShaped(ilist, 2)
    ensures SameButBonds(m, r) && r.bonds == m.bonds + ChemBondPairs(ilist, |ilist| / 3)
  {
    r := m;
    var j := 1;
    ghost var n := 0;
    while j < |ilist|
      invariant j == 3 * n + 1 && 3 * n <= |ilist|
      invariant SameButBonds(m, r) && r.bonds == m.bonds + ChemBondPairs(ilist, n)
    {
      PairTupleBounds(ilist, n);
      r := AddBond(r, ilist[j], ilist[j + 1]);
      j, n := j + 3, n + 1;
    }
    PairTupleBounds(ilist, n);
  }

  /** The stride-4 walk of the SETTLE list: two bonds per entry. */
  method AddSettleBonds(m: Molecule, ilist: seq<int>) returns (r: Molecule)
    requires WellShaped(ilist, 3)
    ensures SameButBonds(m, r) && r.bonds == m.bonds + SettlePairs(ilist, |ilist| / 4)
  {
    r := m;
    var j := 1;
    ghost var n := 0;
    while j < |ilist|
      invariant j == 4 * n + 1 && 4 * n <= |ilist|
      invariant SameButBonds(m, r) && r.bonds == m.bonds + SettlePairs(ilist, n)
    {
      SettleTupleBounds(ilist, n);
      r := AddBond(r, ilist[j], ilist[j + 1]);
      r := AddBond(r, ilist[j], ilist[j + 2]);
      j, n := j + 4, n + 1;
    }
    SettleTupleBounds(ilist, n);
  }

  /** Block b is mapped to one molecule named after its molecule type, with the block's
      instance count, the type's atoms and the deduced bonds. */
  predicate RepresentsBlock(m: Molecule, top: Topology, table: FunctionTable, b: nat) {
    && ValidTopology(top, table) && b < |top.molblock|
    && var mt := BlockType(top, b);
       && m.name == mt.name
       && m.count == top.molblock[b].nmol
       && HoldsAtoms(m, mt.atoms)
       && m.bonds == DeducedBonds(mt, table)
  }

  /** ms are the molecules of the topology's blocks, one per block in block order. */
  predicate RepresentsBlocks(ms: seq<Molecule>, top: Topology, table: FunctionTable) {
    && |ms| == |top.molblock|
    && forall b :: 0 <= b < |ms| ==> RepresentsBlock(ms[b], top, table, b)
  }

  /** The body of gmx_tng_add_mtop's loop over molecule blocks. */
  method MoleculeForBlock(top: Topology, table: FunctionTable, b: nat) returns (m: Molecule)
    requires ValidTopology(top, table) && b < |top.molblock|
    ensures RepresentsBlock(m, top, table, b)
  {
    var molType := top.moltype[top.molblock[b].moltype];
    m := AddMoleculeFromTopology(molType.name, molType.atoms, top.molblock[b].nmol);
    var withBonds := AddDeducedBonds(m, molType, table);
    HoldsAtomsFrame(m, withBonds, molType.atoms);
    m := withBonds;
  }
}
