/** The reduced molecule for the compressed-output selection group (add_selection_groups). */
module SelectionGroups {
  import opened Wrappers
  import opened Topology
  import opened Catalog
  import opened TopologyMapper

  /** Atom k of the selection molecule is global atom g: g's names and explicit id g, in the
      residue of the single chain keyed by g's residue name and id. */
  predicate RecordsGlobalAtom(m: Molecule, k: nat, g: int, flat: seq<FlatAtom>) {
    && Valid(m) && k < |m.atoms| && 0 <= g < |flat|
    && m.atoms[k] == Atom(m.atoms[k].residue, flat[g].name, flat[g].atomType, Some(g))
    && ResidueOf(m, k) == Residue(0, flat[g].resName, flat[g].resId)
  }

  /** The molecule has one unnamed chain and holds exactly the selected atoms among the
      traversed ones (flat), in traversal order, with no residue besides those they use, in
      first-use order. */
  predicate HoldsSelected(m: Molecule, top: Topology, flat: seq<FlatAtom>) {
    && Valid(m)
    && m.chains == [Chain("")]
    && ResiduesByFirstAtom(m)
    && var sel := SelectedIndices(top, |flat|);
       && |m.atoms| == |sel|
       && forall k :: 0 <= k < |sel| ==> RecordsGlobalAtom(m, k, sel[k], flat)
  }

  /** The atom loop over one molecule instance whose first atom has global index atom_offset. */
  method SelectInstanceAtoms(top: Topology, atoms: Atoms, mol0: Molecule, nAtoms0: int, i0: int,
                             atom_offset: int, ghost flat: seq<FlatAtom>)
    returns (mol: Molecule, nAtoms: int, i: int, bAtomsAdded: bool)
    requires ValidAtoms(atoms)
    requires i0 == atom_offset == |flat|
    requires top.compressedXGroupNr.Some? ==> i0 + |atoms.atom| <= |top.compressedXGroupNr.value|
    requires HoldsSelected(mol0, top, flat) && nAtoms0 == |mol0.atoms|
    ensures i == i0 + |atoms.atom|
    ensures HoldsSelected(mol, top, flat + InstanceAtoms(atoms)) && nAtoms == |mol.atoms|
    ensures mol.name == mol0.name && mol.bonds == mol0.bonds && mol.count == mol0.count
    ensures bAtomsAdded == AnySelected(top, atom_offset, |atoms.atom|)
  {
    mol, nAtoms, i := mol0, nAtoms0, i0;
    bAtomsAdded := false;
    var atomIt := 0;
    ghost var done := flat;
    while atomIt < |atoms.atom|
      invariant 0 <= atomIt <= |atoms.atom|
      invariant i == atom_offset + atomIt == |done|
      invariant done == flat + InstanceAtoms(atoms)[..atomIt]
      invariant HoldsSelected(mol, top, done) && nAtoms == |mol.atoms|
      invariant mol.name == mol0.name && mol.bonds == mol0.bonds && mol.count == mol0.count
      invariant bAtomsAdded == AnySelected(top, atom_offset, atomIt)
    {
      assert InGroupRange(top, i);
      ghost var next := done + [FlatAtomOf(atoms, atomIt)];
      assert InstanceAtoms(atoms)[..atomIt + 1] == InstanceAtoms(atoms)[..atomIt] + [FlatAtomOf(atoms, atomIt)];
      var atomAdded;
      mol, atomAdded := SelectAtom(top, atoms, atomIt, mol, atom_offset, done);
      if atomAdded {
        nAtoms := nAtoms + 1;
        bAtomsAdded := true;
      }
      done := next;
      atomIt, i := atomIt + 1, i + 1;
    }
  }

  /** The body of the atom loop: atom atomIt of the instance, global index |done|, is added with
      its explicit id when it is selected. */
  method SelectAtom(top: Topology, atoms: Atoms, atomIt: nat, mol0: Molecule, atom_offset: int, ghost done: seq<FlatAtom>)
    returns (mol: Molecule, added: bool)
    requires ValidAtoms(atoms) && atomIt < |atoms.atom|
    requires |done| == atom_offset + atomIt && InGroupRange(top, |done|)
    requires HoldsSelected(mol0, top, done)
    ensures HoldsSelected(mol, top, done + [FlatAtomOf(atoms, atomIt)])
    ensures added == Selected(top, |done|)
    ensures |mol.atoms| == |mol0.atoms| + (if added then 1 else 0)
    ensures Extends(mol0, mol)
  {
    ghost var next := done + [FlatAtomOf(atoms, atomIt)];
    assert next[..|done|] == done;
    if GroupNr(top, atom_offset + atomIt) == 0 {
      var res_name: string, res_id: int;
      if |atoms.resinfo| > 0 {
        var at := atoms.atom[atomIt];
        res_name, res_id := atoms.resinfo[at.resind].name, at.resind + 1;
      } else {
        res_name, res_id := "", 0;
      }
      var res := FindOrAddResidue(mol0, 0, res_name, res_id);
      mol := AddAtom(res.mol, res.index, atoms.atom[atomIt].name, atoms.atom[atomIt].atomType,
                     Some(atom_offset + atomIt));
      AddAtomByFirstUse(mol0, 0, res_name, res_id, atoms.atom[atomIt].name, atoms.atom[atomIt].atomType,
                        Some(atom_offset + atomIt));
      AddSelectedAtom(mol0, mol, top, done, next);
      added := true;
    } else {
      SkipUnselectedAtom(mol0, top, done, next);
      mol, added := mol0, false;
    }
  }

  lemma AddSelectedAtom(mol: Molecule, added: Molecule, top: Topology, done: seq<FlatAtom>, next: seq<FlatAtom>)
    requires HoldsSelected(mol, top, done)
    requires |next| == |done| + 1 && next[..|done|] == done && Selected(top, |done|)
    requires Valid(added) && Extends(mol, added) && added.chains == mol.chains && ResiduesByFirstAtom(added)
    requires |added.atoms| == |mol.atoms| + 1
    requires var f := next[|done|];
      added.atoms[|mol.atoms|] == Atom(added.atoms[|mol.atoms|].residue, f.name, f.atomType, Some(|done|))
      && ResidueOf(added, |mol.atoms|) == Residue(0, f.resName, f.resId)
    ensures HoldsSelected(added, top, next)
  {
    var sel := SelectedIndices(top, |done|);
    assert SelectedIndices(top, |next|) == sel + [|done|];
    forall k | 0 <= k < |sel| ensures RecordsGlobalAtom(added, k, sel[k], next) {
      assert RecordsGlobalAtom(mol, k, sel[k], done);
      assert next[sel[k]] == done[sel[k]];
    }
  }

  lemma SkipUnselectedAtom(mol: Molecule, top: Topology, done: seq<FlatAtom>, next: seq<FlatAtom>)
    requires HoldsSelected(mol, top, done)
    requires |next| == |done| + 1 && next[..|done|] == done && !Selected(top, |done|)
    ensures HoldsSelected(mol, top, next)
  {
    var sel := SelectedIndices(top, |done|);
    assert SelectedIndices(top, |next|) == sel;
    forall k | 0 <= k < |sel| ensures RecordsGlobalAtom(mol, k, sel[k], next) {
      assert RecordsGlobalAtom(mol, k, sel[k], done);
      assert next[sel[k]] == done[sel[k]];
    }
  }

  /** Which atoms a molecule holds does not depend on its bonds. */
  lemma HoldsSelectedFrame(m: Molecule, r: Molecule, top: Topology, flat: seq<FlatAtom>)
    requires HoldsSelected(m, top, flat)
    requires r.chains == m.chains && r.residues == m.residues && r.atoms == m.atoms
    ensures HoldsSelected(r, top, flat)
  {
    var sel := SelectedIndices(top, |flat|);
    forall k | 0 <= k < |sel| ensures RecordsGlobalAtom(r, k, sel[k], flat) {
      assert RecordsGlobalAtom(m, k, sel[k], flat);
    }
    ResiduesByFirstAtomFrame(m, r);
  }

  /** The bonds of bs whose two endpoints, shifted by offset, are both selected, in order. */
  function KeepSelected(top: Topology, bs: seq<Bond>, offset: int): seq<Bond>
  {
    KeepFirst(top, bs, offset, |bs|)
  }

  /** KeepSelected of the first n bonds of bs. */
  function KeepFirst(top: Topology, bs: seq<Bond>, offset: int, n: nat): seq<Bond>
    requires n <= |bs|
  {
    if n == 0 then []
    else
      KeepFirst(top, bs, offset, n - 1)
      + (if Selected(top, bs[n - 1].from + offset) && Selected(top, bs[n - 1].to + offset) then [bs[n - 1]] else [])
  }

  /** KeepFirst looks only at the first n bonds. */
  lemma {:induction false} KeepFirstPrefix(top: Topology, bs: seq<Bond>, cs: seq<Bond>, offset: int, n: nat)
    requires n <= |bs| && n <= |cs| && bs[..n] == cs[..n]
    ensures KeepFirst(top, bs, offset, n) == KeepFirst(top, cs, offset, n)
  {
    if n > 0 {
      assert bs[..n - 1] == bs[..n][..n - 1] && cs[..n - 1] == cs[..n][..n - 1];
      assert bs[n - 1] == bs[..n][n - 1] && cs[n - 1] == cs[..n][n - 1];
      KeepFirstPrefix(top, bs, cs, offset, n - 1);
    }
  }

  lemma KeepSelectedSnoc(top: Topology, bs: seq<Bond>, b: Bond, offset: int)
    ensures KeepSelected(top, bs + [b], offset)
         == KeepSelected(top, bs, offset) + (if Selected(top, b.from + offset) && Selected(top, b.to + offset) then [b] else [])
  {
    assert (bs + [b])[..|bs|] == bs[..|bs|];
    KeepFirstPrefix(top, bs + [b], bs, offset, |bs|);
  }

  /** Every bond shifted by offset. */
  function Shifted(bs: seq<Bond>, offset: int): (r: seq<Bond>)
    ensures |r| == |bs|
  {
    if |bs| == 0 then []
    else Shifted(bs[..|bs| - 1], offset) + [Bond(bs[|bs| - 1].from + offset, bs[|bs| - 1].to + offset)]
  }

  lemma ShiftedSnoc(bs: seq<Bond>, b: Bond, offset: int)
    ensures Shifted(bs + [b], offset) == Shifted(bs, offset) + [Bond(b.from + offset, b.to + offset)]
  {
    assert (bs + [b])[..|bs|] == bs;
  }

  /** Bond k of the shifted sequence is bond k with both endpoints moved by offset. */
  lemma {:induction false} ShiftedAt(bs: seq<Bond>, offset: int, k: nat)
    requires k < |bs|
    ensures Shifted(bs, offset)[k] == Bond(bs[k].from + offset, bs[k].to + offset)
  {
    if k < |bs| - 1 {
      ShiftedAt(bs[..|bs| - 1], offset, k);
    }
  }

  /** The selected bonds of one instance whose first global atom is offset: the type's chemical
      bonds kept when their offset atoms are selected, in the list's local indices, then its SETTLE
      bonds shifted to global indices and kept when both global atoms are selected. */
  function InstanceSelectedBonds(top: Topology, mt: MolType, table: FunctionTable, offset: int): seq<Bond>
    requires ListsShaped(mt.ilist, table)
  {
    var settle := mt.ilist[table.settle];
    KeepSelected(top, ChemBondsUpTo(mt.ilist, table, |mt.ilist|), offset)
    + KeepSelected(top, Shifted(SettlePairs(settle, |settle| / 4), offset), 0)
  }

  /** The bond loops for one instance of add_selection_groups: the chemical-bond lists, then
      the SETTLE list. */
  method AddInstanceBonds(top: Topology, mt: MolType, table: FunctionTable, mol: Molecule, atom_offset: int)
    returns (r: Molecule)
    requires ValidMolTypeAtoms(mt, table)
    requires 0 <= atom_offset
    requires top.compressedXGroupNr.Some? ==> atom_offset + |mt.atoms.atom| <= |top.compressedXGroupNr.value|
    ensures SameButBonds(mol, r) && r.bonds == mol.bonds + InstanceSelectedBonds(top, mt, table, atom_offset)
  {
    r := AddChemSelectedLists(top, mt, table, mol, atom_offset);
    var settle := mt.ilist[table.settle];
    r := AddSettleSelected(top, settle, |mt.atoms.atom|, r, atom_offset);
    AppendBondsTwice(mol.bonds, KeepSelected(top, ChemBondsUpTo(mt.ilist, table, |mt.ilist|), atom_offset),
                     KeepSelected(top, Shifted(SettlePairs(settle, |settle| / 4), atom_offset), 0));
  }

  /** The loop over function types of add_selection_groups, walking each chemical-bond list. */
  method AddChemSelectedLists(top: Topology, mt: MolType, table: FunctionTable, mol: Molecule, atom_offset: int)
    returns (r: Molecule)
    requires ValidMolTypeAtoms(mt, table)
    requires 0 <= atom_offset
    requires top.compressedXGroupNr.Some? ==> atom_offset + |mt.atoms.atom| <= |top.compressedXGroupNr.value|
    ensures SameButBonds(mol, r)
    ensures r.bonds == mol.bonds + KeepSelected(top, ChemBondsUpTo(mt.ilist, table, |mt.ilist|), atom_offset)
  {
    r := mol;
    var k := 0;
    while k < |table.chemBond|
      invariant 0 <= k <= |table.chemBond|
      invariant SameButBonds(mol, r) && r.bonds == mol.bonds + KeepSelected(top, ChemBondsUpTo(mt.ilist, table, k), atom_offset)
    {
      ChemKeptStep(top, mt.ilist, table, k, atom_offset);
      if table.chemBond[k] {
        ghost var kept := KeepSelected(top, ChemBondsUpTo(mt.ilist, table, k), atom_offset);
        r := AddChemSelected(top, mt.ilist[k], |mt.atoms.atom|, r, atom_offset);
        AppendBondsTwice(mol.bonds, kept, KeepSelected(top, ChemBondPairs(mt.ilist[k], |mt.ilist[k]| / 3), atom_offset));
      }
      k := k + 1;
    }
  }

  /** One more function type appends the kept part of its chemical bonds, if it has any. */
  lemma ChemKeptStep(top: Topology, ilist: seq<seq<int>>, table: FunctionTable, k: nat, offset: int)
    requires ListsShaped(ilist, table) && k < |ilist|
    ensures table.chemBond[k] ==>
              KeepSelected(top, ChemBondsUpTo(ilist, table, k + 1), offset)
              == KeepSelected(top, ChemBondsUpTo(ilist, table, k), offset)
                 + KeepSelected(top, ChemBondPairs(ilist[k], |ilist[k]| / 3), offset)
    ensures !table.chemBond[k] ==>
              KeepSelected(top, ChemBondsUpTo(ilist, table, k + 1), offset) == KeepSelected(top, ChemBondsUpTo(ilist, table, k), offset)
  {
    if table.chemBond[k] {
      KeepSelectedAppend(top, ChemBondsUpTo(ilist, table, k), ChemBondPairs(ilist[k], |ilist[k]| / 3), offset);
    } else {
      assert ChemBondsUpTo(ilist, table, k + 1) == ChemBondsUpTo(ilist, table, k) + [];
      assert ChemBondsUpTo(ilist, table, k) + [] == ChemBondsUpTo(ilist, table, k);
    }
  }

  /** The stride-3 walk of one chemical-bond list, keeping pairs whose shifted atoms are selected. */
  method AddChemSelected(top: Topology, ilist: seq<int>, natoms: int, mol: Molecule, atom_offset: int)
    returns (r: Molecule)
    requires WellShaped(ilist, 2) && PairAtomsInRange(ilist, natoms) && 0 <= atom_offset
    requires top.compressedXGroupNr.Some? ==> atom_offset + natoms <= |top.compressedXGroupNr.value|
    ensures SameButBonds(mol, r) && r.bonds == mol.bonds + KeepSelected(top, ChemBondPairs(ilist, |ilist| / 3), atom_offset)
  {
    r := mol;
    var l := 1;
    ghost var n := 0;
    while l < |ilist|
      invariant l == 3 * n + 1 && 3 * n <= |ilist|
      invariant SameButBonds(mol, r) && r.bonds == mol.bonds + KeepSelected(top, ChemBondPairs(ilist, n), atom_offset)
    {
      PairTupleBounds(ilist, n);
      PairTupleInGroupRange(top, ilist, natoms, atom_offset, n);
      ghost var pairs := ChemBondPairs(ilist, n);
      assert ChemBondPairs(ilist, n + 1) == pairs + [Bond(ilist[l], ilist[l + 1])];
      KeepSelectedAppend(top, pairs, [Bond(ilist[l], ilist[l + 1])], atom_offset);
      r := AddChemPair(top, r, ilist[l], ilist[l + 1], atom_offset);
      AppendBondsTwice(mol.bonds, KeepSelected(top, pairs, atom_offset), KeepSelected(top, [Bond(ilist[l], ilist[l + 1])], atom_offset));
      l, n := l + 3, n + 1;
    }
    PairTupleBounds(ilist, n);
  }

  /** The offset atoms of chemical tuple n have group numbers. */
  lemma PairTupleInGroupRange(top: Topology, l: seq<int>, natoms: int, offset: int, n: nat)
    requires PairAtomsInRange(l, natoms) && 3 * n + 2 < |l| && 0 <= offset
    requires top.compressedXGroupNr.Some? ==> offset + natoms <= |top.compressedXGroupNr.value|
    ensures InGroupRange(top, l[3 * n + 1] + offset) && InGroupRange(top, l[3 * n + 2] + offset)
  {
    assert 0 <= l[3 * n + 1] < natoms && 0 <= l[3 * n + 2] < natoms;
  }

  /** The offset atoms of SETTLE tuple n have group numbers. */
  lemma SettleTupleInGroupRange(top: Topology, l: seq<int>, natoms: int, offset: int, n: nat)
    requires SettleAtomsInRange(l, natoms) && 4 * n + 3 < |l| && 0 <= offset
    requires top.compressedXGroupNr.Some? ==> offset + natoms <= |top.compressedXGroupNr.value|
    ensures InGroupRange(top, l[4 * n + 1] + offset) && InGroupRange(top, l[4 * n + 2] + offset)
    ensures InGroupRange(top, l[4 * n + 3] + offset)
  {
    assert 0 <= l[4 * n + 1] < natoms && 0 <= l[4 * n + 2] < natoms && 0 <= l[4 * n + 3] < natoms;
  }

  /** One tuple of a chemical-bond list: the bond, in local indices, when both offset atoms are
      selected. */
  method AddChemPair(top: Topology, mol: Molecule, from: int, to: int, atom_offset: int) returns (r: Molecule)
    requires InGroupRange(top, from + atom_offset) && InGroupRange(top, to + atom_offset)
    ensures SameButBonds(mol, r) && r.bonds == mol.bonds + KeepSelected(top, [Bond(from, to)], atom_offset)
  {
    KeepSelectedSnoc(top, [], Bond(from, to), atom_offset);
    assert [] + [Bond(from, to)] == [Bond(from, to)];
    r := mol;
    var atom1, atom2 := from + atom_offset, to + atom_offset;
    if GroupNr(top, atom1) == 0 && GroupNr(top, atom2) == 0 {
      r := AddBond(r, from, to);
    }
  }

  /** The stride-4 walk of the SETTLE list, keeping each oxygen-hydrogen pair on its own. */
  method AddSettleSelected(top: Topology, ilist: seq<int>, natoms: int, mol: Molecule, atom_offset: int)
    returns (r: Molecule)
    requires WellShaped(ilist, 3) && SettleAtomsInRange(ilist, natoms) && 0 <= atom_offset
    requires top.compressedXGroupNr.Some? ==> atom_offset + natoms <= |top.compressedXGroupNr.value|
    ensures SameButBonds(mol, r) && r.bonds == mol.bonds + KeepSelected(top, Shifted(SettlePairs(ilist, |ilist| / 4), atom_offset), 0)
  {
    r := mol;
    var l := 1;
    ghost var n := 0;
    while l < |ilist|
      invariant l == 4 * n + 1 && 4 * n <= |ilist|
      invariant SameButBonds(mol, r) && r.bonds == mol.bonds + KeepSelected(top, Shifted(SettlePairs(ilist, n), atom_offset), 0)
    {
      SettleTupleBounds(ilist, n);
      var atom1, atom2, atom3 := ilist[l] + atom_offset, ilist[l + 1] + atom_offset, ilist[l + 2] + atom_offset;
      SettleTupleInGroupRange(top, ilist, natoms, atom_offset, n);
      ghost var kept := KeepSelected(top, Shifted(SettlePairs(ilist, n), atom_offset), 0);
      SettleSelectedStep(top, ilist, n, atom_offset, atom1, atom2, atom3);
      r := AddSettleTuple(top, r, atom1, atom2, atom3);
      AppendBondsTwice(mol.bonds, kept, KeepSelected(top, [Bond(atom1, atom2), Bond(atom1, atom3)], 0));
      l, n := l + 4, n + 1;
    }
    SettleTupleBounds(ilist, n);
  }

  /** One more SETTLE tuple appends the kept part of its two shifted oxygen-hydrogen bonds. */
  lemma SettleSelectedStep(top: Topology, l: seq<int>, n: nat, offset: int, o: int, h1: int, h2: int)
    requires 4 * (n + 1) <= |l|
    requires o == l[4 * n + 1] + offset && h1 == l[4 * n + 2] + offset && h2 == l[4 * n + 3] + offset
    ensures KeepSelected(top, Shifted(SettlePairs(l, n + 1), offset), 0)
            == KeepSelected(top, Shifted(SettlePairs(l, n), offset), 0) + KeepSelected(top, [Bond(o, h1), Bond(o, h2)], 0)
  {
    var pairs := SettlePairs(l, n);
    assert SettlePairs(l, n + 1) == pairs + [Bond(l[4 * n + 1], l[4 * n + 2]), Bond(l[4 * n + 1], l[4 * n + 3])];
    ShiftedSnoc(pairs + [Bond(l[4 * n + 1], l[4 * n + 2])], Bond(l[4 * n + 1], l[4 * n + 3]), offset);
    ShiftedSnoc(pairs, Bond(l[4 * n + 1], l[4 * n + 2]), offset);
    assert pairs + [Bond(l[4 * n + 1], l[4 * n + 2]), Bond(l[4 * n + 1], l[4 * n + 3])]
        == pairs + [Bond(l[4 * n + 1], l[4 * n + 2])] + [Bond(l[4 * n + 1], l[4 * n + 3])];
    assert Shifted(SettlePairs(l, n + 1), offset) == Shifted(pairs, offset) + [Bond(o, h1), Bond(o, h2)];
    KeepSelectedAppend(top, Shifted(pairs, offset), [Bond(o, h1), Bond(o, h2)], 0);
  }

  /** One SETTLE tuple of add_selection_groups: the oxygen bonds to each selected hydrogen when
      the oxygen itself is selected. */
  method AddSettleTuple(top: Topology, mol: Molecule, atom1: int, atom2: int, atom3: int) returns (r: Molecule)
    requires InGroupRange(top, atom1) && InGroupRange(top, atom2) && InGroupRange(top, atom3)
    ensures SameButBonds(mol, r) && r.bonds == mol.bonds + KeepSelected(top, [Bond(atom1, atom2), Bond(atom1, atom3)], 0)
  {
    KeepSelectedSnoc(top, [Bond(atom1, atom2)], Bond(atom1, atom3), 0);
    KeepSelectedSnoc(top, [], Bond(atom1, atom2), 0);
    assert [Bond(atom1, atom2), Bond(atom1, atom3)] == [Bond(atom1, atom2)] + [Bond(atom1, atom3)];
    assert [] + [Bond(atom1, atom2)] == [Bond(atom1, atom2)];
    assert KeepSelected(top, [], 0) == [];
    ghost var sel1, sel2, sel3 := Selected(top, atom1), Selected(top, atom2), Selected(top, atom3);
    assert KeepSelected(top, [Bond(atom1, atom2), Bond(atom1, atom3)], 0)
        == (if sel1 && sel2 then [Bond(atom1, atom2)] else []) + (if sel1 && sel3 then [Bond(atom1, atom3)] else []);
    r := mol;
    if GroupNr(top, atom1) == 0 {
      if GroupNr(top, atom2) == 0 {
        r := AddBond(r, atom1, atom2);
      }
      if GroupNr(top, atom3) == 0 {
        r := AddBond(r, atom1, atom3);
      }
    }
  }

  /** The bonds of the first b blocks' instances, each from an instance that had an atom selected. */
  function SelectionBondsOfBlocks(top: Topology, table: FunctionTable, b: nat): seq<Bond>
    requires ValidTopology(top, table) && b <= |top.molblock|
    decreases 2 * b
  {
    if b == 0 then [] else SelectionBondsUpTo(top, table, b - 1, Instances(top.molblock[b - 1]))
  }

  /** The bonds of the first b blocks and of the first j instances of block b. */
  function SelectionBondsUpTo(top: Topology, table: FunctionTable, b: nat, j: nat): seq<Bond>
    requires ValidTopology(top, table) && b < |top.molblock|
    decreases 2 * b + 1, j
  {
    if j == 0 then SelectionBondsOfBlocks(top, table, b)
    else
      var mt := BlockType(top, b);
      var offset := |FlatUpTo(top, b, j - 1)|;
      SelectionBondsUpTo(top, table, b, j - 1)
      + (if AnySelected(top, offset, |mt.atoms.atom|) then InstanceSelectedBonds(top, mt, table, offset) else [])
  }

  /** The atoms add_selection_groups traverses: those of the first |moltype| blocks. */
  function Traversed(top: Topology): seq<FlatAtom>
    requires AtomsValid(top) && |top.moltype| <= |top.molblock|
  {
    Flat(top, |top.moltype|)
  }

  /** The traversal covers a prefix of the system's atoms, and all of them when there are as
      many blocks as molecule types; atoms of later blocks never reach the selection. */
  lemma TraversedPrefix(top: Topology)
    requires AtomsValid(top) && |top.moltype| <= |top.molblock|
    ensures Traversed(top) <= AllAtoms(top)
    ensures |top.moltype| == |top.molblock| ==> Traversed(top) == AllAtoms(top)
  {
    FlatPrefix(top, |top.moltype|, |top.molblock|);
  }

  /** The reduced molecule: named after the group, holding the selected traversed atoms and the
      bonds of the instances that contributed atoms. */
  predicate IsSelectionMolecule(m: Molecule, top: Topology, table: FunctionTable) {
    && ValidSelectionTopology(top, table)
    && m.name == SelectionGroupName(top)
    && HoldsSelected(m, top, Traversed(top))
    && m.bonds == SelectionBondsOfBlocks(top, table, |top.moltype|)
  }

  /** The traversal of add_selection_groups, up to the decision whether to register the molecule:
      returns the molecule, the selected count nAtoms and the final global index i. */
  method SelectionMolecule(top: Topology, table: FunctionTable) returns (mol: Molecule, nAtoms: int, i: int)
    requires ValidSelectionTopology(top, table)
    ensures IsSelectionMolecule(mol, top, table) && mol.count == 0
    ensures i == |Traversed(top)|
    ensures nAtoms == |mol.atoms| == |SelectedIndices(top, i)| <= i
  {
    var nameIndex := top.compressedXNameIndex[0];
    var groupName := top.grpname[nameIndex];
    mol := EmptyMolecule(groupName);
    mol := mol.(chains := mol.chains + [Chain("")]);
    nAtoms, i := 0, 0;
    var atom_offset := 0;
    var molIt := 0;
    while molIt < |top.moltype|
      invariant 0 <= molIt <= |top.moltype|
      invariant i == atom_offset == |Flat(top, molIt)|
      invariant HoldsSelected(mol, top, Flat(top, molIt)) && nAtoms == |mol.atoms|
      invariant mol.name == groupName && mol.count == 0
      invariant mol.bonds == SelectionBondsOfBlocks(top, table, molIt)
    {
      mol, nAtoms, i, atom_offset := SelectBlock(top, table, molIt, mol, nAtoms, i, atom_offset);
      molIt := molIt + 1;
    }
    SelectedIndicesSpec(top, i);
  }

  /** The instance loop of add_selection_groups over block b. */
  method SelectBlock(top: Topology, table: FunctionTable, b: nat, mol0: Molecule, nAtoms0: int, i0: int, offset0: int)
    returns (mol: Molecule, nAtoms: int, i: int, atom_offset: int)
    requires ValidSelectionTopology(top, table) && b < |top.moltype|
    requires i0 == offset0 == |Flat(top, b)|
    requires HoldsSelected(mol0, top, Flat(top, b)) && nAtoms0 == |mol0.atoms|
    requires mol0.bonds == SelectionBondsOfBlocks(top, table, b)
    ensures i == atom_offset == |Flat(top, b + 1)|
    ensures HoldsSelected(mol, top, Flat(top, b + 1)) && nAtoms == |mol.atoms|
    ensures mol.name == mol0.name && mol.count == mol0.count
    ensures mol.bonds == SelectionBondsOfBlocks(top, table, b + 1)
  {
    mol, nAtoms, i, atom_offset := mol0, nAtoms0, i0, offset0;
    var molType := top.moltype[top.molblock[b].moltype];
    var atoms := molType.atoms;
    var j := 0;
    while j < top.molblock[b].nmol
      invariant 0 <= j <= Instances(top.molblock[b])
      invariant i == atom_offset == |FlatUpTo(top, b, j)|
      invariant HoldsSelected(mol, top, FlatUpTo(top, b, j)) && nAtoms == |mol.atoms|
      invariant mol.name == mol0.name && mol.count == mol0.count
      invariant mol.bonds == SelectionBondsUpTo(top, table, b, j)
    {
      mol, nAtoms, i, atom_offset := SelectInstance(top, table, b, j, mol, nAtoms, i, atom_offset);
      j := j + 1;
    }
    assert j == Instances(top.molblock[b]);
    assert Flat(top, b + 1) == FlatUpTo(top, b, j);
    assert SelectionBondsOfBlocks(top, table, b + 1) == SelectionBondsUpTo(top, table, b, j);
  }

  /** The body of the instance loop: instance j of block b. */
  method SelectInstance(top: Topology, table: FunctionTable, b: nat, j: nat, mol0: Molecule, nAtoms0: int, i0: int, offset0: int)
    returns (mol: Molecule, nAtoms: int, i: int, atom_offset: int)
    requires ValidSelectionTopology(top, table) && b < |top.moltype| && j < Instances(top.molblock[b])
    requires i0 == offset0 == |FlatUpTo(top, b, j)|
    requires HoldsSelected(mol0, top, FlatUpTo(top, b, j)) && nAtoms0 == |mol0.atoms|
    requires mol0.bonds == SelectionBondsUpTo(top, table, b, j)
    ensures i == atom_offset == |FlatUpTo(top, b, j + 1)|
    ensures HoldsSelected(mol, top, FlatUpTo(top, b, j + 1)) && nAtoms == |mol.atoms|
    ensures mol.name == mol0.name && mol.count == mol0.count
    ensures mol.bonds == SelectionBondsUpTo(top, table, b, j + 1)
  {
    var molType := top.moltype[top.molblock[b].moltype];
    var atoms := molType.atoms;
    ghost var flat := FlatUpTo(top, b, j);
    InstanceInside(top, b, j);
    assert |flat| + |atoms.atom| <= |AllAtoms(top)| by {
      assert FlatUpTo(top, b, j + 1) == flat + InstanceAtoms(atoms);
    }
    assert ValidMolTypeAtoms(molType, table);
    var bAtomsAdded;
    mol, nAtoms, i, bAtomsAdded := SelectInstanceAtoms(top, atoms, mol0, nAtoms0, i0, offset0, flat);
    if bAtomsAdded {
      var withBonds := AddInstanceBonds(top, molType, table, mol, offset0);
      HoldsSelectedFrame(mol, withBonds, top, FlatUpTo(top, b, j + 1));
      mol := withBonds;
    }
    atom_offset := offset0 + |atoms.atom|;
  }

  /** An instance contributes bonds exactly when one of its atoms is selected. */
  lemma {:induction false} AnySelectedSpec(top: Topology, offset: int, n: nat)
    ensures AnySelected(top, offset, n) <==> exists g :: offset <= g < offset + n && Selected(top, g)
  {
    if n > 0 {
      AnySelectedSpec(top, offset, n - 1);
      if Selected(top, offset + n - 1) {
        assert offset <= offset + n - 1 < offset + n;
      }
    }
  }

  /** Filtering distributes over concatenation. */
  lemma {:induction false} KeepSelectedAppend(top: Topology, xs: seq<Bond>, ys: seq<Bond>, offset: int)
    ensures KeepSelected(top, xs + ys, offset) == KeepSelected(top, xs, offset) + KeepSelected(top, ys, offset)
  {
    if |ys| == 0 {
      assert xs + ys == xs;
    } else {
      var init, last := ys[..|ys| - 1], ys[|ys| - 1];
      assert xs + ys == (xs + init) + [last];
      assert ys == init + [last];
      KeepSelectedAppend(top, xs, init, offset);
      KeepSelectedSnoc(top, xs + init, last, offset);
      KeepSelectedSnoc(top, init, last, offset);
    }
  }

  /** A bond is kept exactly when it is one of bs and both its shifted endpoints are selected. */
  lemma {:induction false} KeepSelectedMembers(top: Topology, bs: seq<Bond>, offset: int, b: Bond)
    ensures b in KeepSelected(top, bs, offset) <==> b in bs && Selected(top, b.from + offset) && Selected(top, b.to + offset)
  {
    if |bs| > 0 {
      KeepSelectedMembers(top, bs[..|bs| - 1], offset, b);
      assert bs == bs[..|bs| - 1] + [bs[|bs| - 1]];
      KeepSelectedSnoc(top, bs[..|bs| - 1], bs[|bs| - 1], offset);
    }
  }

  /** When every atom is selected, nothing is filtered out. */
  lemma {:induction false} KeepSelectedAll(top: Topology, bs: seq<Bond>, offset: int)
    requires forall g :: Selected(top, g)
    ensures KeepSelected(top, bs, offset) == bs
  {
    if |bs| > 0 {
      KeepSelectedAll(top, bs[..|bs| - 1], offset);
      assert bs == bs[..|bs| - 1] + [bs[|bs| - 1]];
      KeepSelectedSnoc(top, bs[..|bs| - 1], bs[|bs| - 1], offset);
    }
  }

  /** Chemical tuple k's bond, in local indices, is kept exactly when both its offset atoms are
      selected. */
  lemma ChemSelectedTuple(top: Topology, l: seq<int>, n: nat, offset: int, k: nat)
    requires 3 * n <= |l| && k < n
    ensures Bond(l[3 * k + 1], l[3 * k + 2]) in KeepSelected(top, ChemBondPairs(l, n), offset)
            <==> Selected(top, l[3 * k + 1] + offset) && Selected(top, l[3 * k + 2] + offset)
  {
    ChemBondPairsAt(l, n, k);
    KeepSelectedMembers(top, ChemBondPairs(l, n), offset, Bond(l[3 * k + 1], l[3 * k + 2]));
  }

  /** The oxygen-hydrogen bonds of SETTLE tuple k, in global indices, are each kept exactly when
      the oxygen and that hydrogen are selected, whatever the other hydrogen. */
  lemma SettleSelectedTuple(top: Topology, l: seq<int>, n: nat, offset: int, k: nat)
    requires 4 * n <= |l| && k < n
    ensures Bond(l[4 * k + 1] + offset, l[4 * k + 2] + offset) in KeepSelected(top, Shifted(SettlePairs(l, n), offset), 0)
            <==> Selected(top, l[4 * k + 1] + offset) && Selected(top, l[4 * k + 2] + offset)
    ensures Bond(l[4 * k + 1] + offset, l[4 * k + 3] + offset) in KeepSelected(top, Shifted(SettlePairs(l, n), offset), 0)
            <==> Selected(top, l[4 * k + 1] + offset) && Selected(top, l[4 * k + 3] + offset)
  {
    var shifted := Shifted(SettlePairs(l, n), offset);
    SettlePairsAt(l, n, k);
    ShiftedAt(SettlePairs(l, n), offset, 2 * k);
    ShiftedAt(SettlePairs(l, n), offset, 2 * k + 1);
    assert shifted[2 * k] == Bond(l[4 * k + 1] + offset, l[4 * k + 2] + offset);
    assert shifted[2 * k + 1] == Bond(l[4 * k + 1] + offset, l[4 * k + 3] + offset);
    KeepSelectedMembers(top, shifted, 0, shifted[2 * k]);
    KeepSelectedMembers(top, shifted, 0, shifted[2 * k + 1]);
  }

  /** With every atom selected, an instance keeps the full mapping's bonds: the chemical bonds
      unchanged, in local indices, and the SETTLE bonds shifted to global indices. */
  lemma FullSelectionBonds(top: Topology, mt: MolType, table: FunctionTable, offset: int)
    requires ListsShaped(mt.ilist, table)
    requires forall g :: Selected(top, g)
    ensures var settle := mt.ilist[table.settle];
            InstanceSelectedBonds(top, mt, table, offset)
            == ChemBondsUpTo(mt.ilist, table, |mt.ilist|) + Shifted(SettlePairs(settle, |settle| / 4), offset)
  {
    var settle := mt.ilist[table.settle];
    KeepSelectedAll(top, ChemBondsUpTo(mt.ilist, table, |mt.ilist|), offset);
    KeepSelectedAll(top, Shifted(SettlePairs(settle, |settle| / 4), offset), 0);
  }
}
