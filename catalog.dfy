/** The container's molecular catalog, abstracted: each molecule keeps flat lists of chains,
    residues (each naming its chain by index) and atoms (each naming its residue by index), its
    bonds and its instance count. Find-or-create is keyed lookup. */
module Catalog {
  import opened Wrappers

  datatype Chain = Chain(name: string)

  datatype Residue = Residue(chain: nat, name: string, id: int)

  /** An atom; `id` is the explicit id of tng_residue_atom_w_id_add, None when the container
      numbers the atom itself. */
  datatype Atom = Atom(residue: nat, name: string, atomType: string, id: Option<int>)

  datatype Bond = Bond(from: int, to: int)

  datatype Molecule = Molecule(name: string, chains: seq<Chain>, residues: seq<Residue>,
                               atoms: seq<Atom>, bonds: seq<Bond>, count: int)

  /** A freshly declared molecule: no chains, residues, atoms or bonds. */
  function EmptyMolecule(name: string): (m: Molecule)
    ensures m.name == name && m.chains == [] && m.residues == [] && m.atoms == [] && m.bonds == []
  {
    Molecule(name, [], [], [], [], 0)
  }

  /** References are in range, chain names are unique and residue keys are unique. */
  predicate Valid(m: Molecule) {
    && (forall r :: 0 <= r < |m.residues| ==> m.residues[r].chain < |m.chains|)
    && (forall k :: 0 <= k < |m.atoms| ==> m.atoms[k].residue < |m.residues|)
    && (forall a, b :: 0 <= a < b < |m.chains| ==> m.chains[a].name != m.chains[b].name)
    && (forall a, b :: 0 <= a < b < |m.residues| ==> m.residues[a] != m.residues[b])
  }

  /** r keeps every chain, residue and atom of m at its index and the name, bonds and count. */
  predicate Extends(m: Molecule, r: Molecule) {
    && r.name == m.name && r.bonds == m.bonds && r.count == m.count
    && |m.chains| <= |r.chains| && |m.residues| <= |r.residues| && |m.atoms| <= |r.atoms|
    && (forall c :: 0 <= c < |m.chains| ==> r.chains[c] == m.chains[c])
    && (forall c :: 0 <= c < |m.residues| ==> r.residues[c] == m.residues[c])
    && (forall c :: 0 <= c < |m.atoms| ==> r.atoms[c] == m.atoms[c])
  }

  /** The chain of the molecule with this name, if any. */
  function FindChain(chains: seq<Chain>, name: string): (r: Option<nat>)
    ensures r.Some? ==> r.value < |chains| && chains[r.value].name == name
    ensures r.None? ==> forall c :: 0 <= c < |chains| ==> chains[c].name != name
  {
    if |chains| == 0 then None
    else if chains[0].name == name then Some(0)
    else match FindChain(chains[1..], name)
      case None => None
      case Some(c) => Some(c + 1)
  }

  /** The residue of the given chain with this name and id, if any. */
  function FindResidue(residues: seq<Residue>, chain: nat, name: string, id: int): (r: Option<nat>)
    ensures r.Some? ==> r.value < |residues| && residues[r.value] == Residue(chain, name, id)
    ensures r.None? ==> forall k :: 0 <= k < |residues| ==> residues[k] != Residue(chain, name, id)
  {
    if |residues| == 0 then None
    else if residues[0] == Residue(chain, name, id) then Some(0)
    else match FindResidue(residues[1..], chain, name, id)
      case None => None
      case Some(k) => Some(k + 1)
  }

  /** A molecule and the index of the chain, residue or atom just found or added in it. */
  datatype Placed = Placed(mol: Molecule, index: nat)

  /** Chain find-or-create (tng_molecule_chain_find, then tng_molecule_chain_add). */
  function FindOrAddChain(m: Molecule, name: string): (r: Placed)
    requires Valid(m)
    ensures Valid(r.mol) && Extends(m, r.mol)
    ensures r.mol.residues == m.residues && r.mol.atoms == m.atoms
    ensures r.index < |r.mol.chains| && r.mol.chains[r.index].name == name
    ensures FindChain(m.chains, name).Some? ==> r.mol == m
    ensures FindChain(m.chains, name).None? ==> r.mol.chains == m.chains + [Chain(name)] && r.index == |m.chains|
  {
    match FindChain(m.chains, name)
    case Some(c) => Placed(m, c)
    case None => Placed(m.(chains := m.chains + [Chain(name)]), |m.chains|)
  }

  /** Residue find-or-create inside a chain (tng_chain_residue_find, then tng_chain_residue_add);
      the created residue carries the key it was looked up by. */
  function FindOrAddResidue(m: Molecule, chain: nat, name: string, id: int): (r: Placed)
    requires Valid(m) && chain < |m.chains|
    ensures Valid(r.mol) && Extends(m, r.mol)
    ensures r.mol.chains == m.chains && r.mol.atoms == m.atoms
    ensures r.index < |r.mol.residues| && r.mol.residues[r.index] == Residue(chain, name, id)
    ensures FindResidue(m.residues, chain, name, id).Some? ==> r.mol == m
    ensures FindResidue(m.residues, chain, name, id).None? ==>
              r.mol.residues == m.residues + [Residue(chain, name, id)] && r.index == |m.residues|
  {
    match FindResidue(m.residues, chain, name, id)
    case Some(k) => Placed(m, k)
    case None => Placed(m.(residues := m.residues + [Residue(chain, name, id)]), |m.residues|)
  }

  /** Adds an atom to an existing residue (tng_residue_atom_add / tng_residue_atom_w_id_add). */
  function AddAtom(m: Molecule, residue: nat, name: string, atomType: string, id: Option<int>): (r: Molecule)
    requires Valid(m) && residue < |m.residues|
    ensures Valid(r) && Extends(m, r)
    ensures r.chains == m.chains && r.residues == m.residues
    ensures r.atoms == m.atoms + [Atom(residue, name, atomType, id)]
  {
    m.(atoms := m.atoms + [Atom(residue, name, atomType, id)])
  }

  /** r differs from m at most in its bonds. */
  predicate SameButBonds(m: Molecule, r: Molecule) {
    r.name == m.name && r.chains == m.chains && r.residues == m.residues && r.atoms == m.atoms && r.count == m.count
  }

  /** tng_molecule_bond_add: the bond goes after the existing ones and nothing else changes. */
  function AddBond(m: Molecule, from: int, to: int): (r: Molecule)
    ensures SameButBonds(m, r) && r.bonds == m.bonds + [Bond(from, to)]
  {
    m.(bonds := m.bonds + [Bond(from, to)])
  }

  /** Appending bonds in two steps appends their concatenation. */
  lemma AppendBondsTwice(bonds: seq<Bond>, xs: seq<Bond>, ys: seq<Bond>)
    ensures bonds + xs + ys == bonds + (xs + ys)
  {
  }

  /** The residue of atom k. */
  function ResidueOf(m: Molecule, k: nat): Residue
    requires Valid(m) && k < |m.atoms|
  {
    m.residues[m.atoms[k].residue]
  }

  /** The chain of atom k. */
  function ChainOf(m: Molecule, k: nat): Chain
    requires Valid(m) && k < |m.atoms|
  {
    m.chains[ResidueOf(m, k).chain]
  }

  /** Atom k is the first atom of residue r, and every atom before it is in an earlier residue. */
  predicate FirstAtomOf(m: Molecule, r: nat, k: nat) {
    k < |m.atoms| && m.atoms[k].residue == r && forall j :: 0 <= j < k ==> m.atoms[j].residue < r
  }

  /** Residue r is the first residue of chain c, and every residue before it is in an earlier chain. */
  predicate FirstResidueOf(m: Molecule, c: nat, r: nat) {
    r < |m.residues| && m.residues[r].chain == c && forall q :: 0 <= q < r ==> m.residues[q].chain < c
  }

  /** Every residue is used by an atom, and residues are listed in the order of their first
      atom: as find-or-create leaves them, creating a residue only for the atom that needs it. */
  predicate ResiduesByFirstAtom(m: Molecule) {
    forall r: nat :: r < |m.residues| ==> HasFirstAtom(m, r)
  }

  predicate HasFirstAtom(m: Molecule, r: nat) {
    exists k: nat :: k < |m.atoms| && FirstAtomOf(m, r, k)
  }

  /** Every chain holds a residue, and chains are listed in the order of their first residue. */
  predicate ChainsByFirstResidue(m: Molecule) {
    forall c: nat :: c < |m.chains| ==> HasFirstResidue(m, c)
  }

  predicate HasFirstResidue(m: Molecule, c: nat) {
    exists r: nat :: r < |m.residues| && FirstResidueOf(m, c, r)
  }

  /** The residue order depends only on the residues and the atoms. */
  lemma ResiduesByFirstAtomFrame(m: Molecule, r: Molecule)
    requires ResiduesByFirstAtom(m) && r.residues == m.residues && r.atoms == m.atoms
    ensures ResiduesByFirstAtom(r)
  {
    forall x: nat | x < |r.residues| ensures HasFirstAtom(r, x) {
      assert HasFirstAtom(m, x);
      var k: nat :| k < |m.atoms| && FirstAtomOf(m, x, k);
      assert FirstAtomOf(r, x, k);
    }
  }

  /** The chain order depends only on the chains and the residues. */
  lemma ChainsByFirstResidueFrame(m: Molecule, r: Molecule)
    requires ChainsByFirstResidue(m) && r.chains == m.chains && r.residues == m.residues
    ensures ChainsByFirstResidue(r)
  {
    forall c: nat | c < |r.chains| ensures HasFirstResidue(r, c) {
      assert HasFirstResidue(m, c);
      var x: nat :| x < |m.residues| && FirstResidueOf(m, c, x);
      assert FirstResidueOf(r, c, x);
    }
  }

  /** Placing one atom by residue find-or-create keeps the residues in first-use order. */
  lemma AddAtomByFirstUse(m: Molecule, chain: nat, name: string, id: int, atomName: string, atomType: string,
                          atomId: Option<int>)
    requires Valid(m) && chain < |m.chains| && ResiduesByFirstAtom(m)
    ensures var res := FindOrAddResidue(m, chain, name, id);
      ResiduesByFirstAtom(AddAtom(res.mol, res.index, atomName, atomType, atomId))
  {
    var res := FindOrAddResidue(m, chain, name, id);
    var next := AddAtom(res.mol, res.index, atomName, atomType, atomId);
    forall r: nat | r < |next.residues| ensures HasFirstAtom(next, r) {
      if r < |m.residues| {
        assert HasFirstAtom(m, r);
        var k: nat :| k < |m.atoms| && FirstAtomOf(m, r, k);
        assert forall j :: 0 <= j <= k ==> next.atoms[j] == m.atoms[j];
        assert FirstAtomOf(next, r, k);
      } else {
        assert r == |m.residues| == res.index;
        forall j | 0 <= j < |m.atoms| ensures next.atoms[j].residue < r {
          assert next.atoms[j] == m.atoms[j];
        }
        assert FirstAtomOf(next, r, |m.atoms|);
      }
    }
  }

  /** A chain find-or-create followed by a residue find-or-create in that chain keeps the chains in
      first-use order: a new chain gets its residue at once. */
  lemma AddResidueByFirstUse(m: Molecule, chainName: string, name: string, id: int)
    requires Valid(m) && ChainsByFirstResidue(m)
    ensures var ch := FindOrAddChain(m, chainName);
      ChainsByFirstResidue(FindOrAddResidue(ch.mol, ch.index, name, id).mol)
  {
    var ch := FindOrAddChain(m, chainName);
    var res := FindOrAddResidue(ch.mol, ch.index, name, id);
    var next := res.mol;
    if FindChain(m.chains, chainName).None? {
      assert FindResidue(ch.mol.residues, ch.index, name, id).None? by {
        forall k | 0 <= k < |ch.mol.residues| ensures ch.mol.residues[k] != Residue(ch.index, name, id) {
          assert ch.mol.residues[k].chain < |m.chains|;
        }
      }
    }
    forall c: nat | c < |next.chains| ensures HasFirstResidue(next, c) {
      if c < |m.chains| {
        assert HasFirstResidue(m, c);
        var r: nat :| r < |m.residues| && FirstResidueOf(m, c, r);
        assert forall q :: 0 <= q <= r ==> next.residues[q] == m.residues[q];
        assert FirstResidueOf(next, c, r);
      } else {
        forall q | 0 <= q < |m.residues| ensures next.residues[q].chain < c {
          assert next.residues[q] == m.residues[q];
        }
        assert FirstResidueOf(next, c, |m.residues|);
      }
    }
  }

  /** The number of particles the catalog describes: instance count times atoms, summed. */
  function CatalogParticles(cat: seq<Molecule>): int {
    if cat == [] then 0
    else CatalogParticles(cat[..|cat| - 1]) + cat[|cat| - 1].count * |cat[|cat| - 1].atoms|
  }

  /** Every molecule of the catalog with its instance count set to 0. */
  function ZeroCounts(cat: seq<Molecule>): (r: seq<Molecule>)
    ensures |r| == |cat|
    ensures forall k :: 0 <= k < |cat| ==> r[k] == cat[k].(count := 0)
  {
    seq(|cat|, k requires 0 <= k < |cat| => cat[k].(count := 0))
  }

  /** A catalog whose counts were zeroed, plus one molecule of count 1, has exactly that
      molecule's atoms as particles. */
  lemma {:induction false} ReducedCatalogParticles(cat: seq<Molecule>, m: Molecule)
    ensures CatalogParticles(ZeroCounts(cat) + [m.(count := 1)]) == |m.atoms|
  {
    var z := ZeroCounts(cat) + [m.(count := 1)];
    assert z[..|z| - 1] == ZeroCounts(cat);
    ZeroCountsNoParticles(cat);
  }

  lemma {:induction false} ZeroCountsNoParticles(cat: seq<Molecule>)
    ensures CatalogParticles(ZeroCounts(cat)) == 0
  {
    if cat != [] {
      var z := ZeroCounts(cat);
      assert z[..|z| - 1] == ZeroCounts(cat[..|cat| - 1]);
      ZeroCountsNoParticles(cat[..|cat| - 1]);
    }
  }
}
