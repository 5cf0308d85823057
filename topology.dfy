/** The in-memory topology the core reads (gmx_mtop_t and the types under it). Read-only input. */
module Topology {
  import opened Wrappers

  /** t_resinfo: the residue name and the one-character chain identifier. */
  datatype ResInfo = ResInfo(name: string, chainId: char)

  /** One atom of a molecule type: atomname, atomtype and the residue index of its t_atom. */
  datatype AtomEntry = AtomEntry(name: string, atomType: string, resind: int)

  /** t_atoms: nr == |atom|, nres == |resinfo|. */
  datatype Atoms = Atoms(atom: seq<AtomEntry>, resinfo: seq<ResInfo>)

  /** gmx_moltype_t: the interaction lists are indexed by interaction function type. */
  datatype MolType = MolType(name: string, atoms: Atoms, ilist: seq<seq<int>>)

  /** gmx_molblock_t: nmol copies of molecule type `moltype`. */
  datatype MolBlock = MolBlock(moltype: int, nmol: int)

  /** gmx_mtop_t with the parts of its groups the core reads: the group names, the name
      indices of the compressed-output group (egcCompressedX) and its per-atom group numbers
      (absent when every atom is in group 0). */
  datatype Topology = Topology(moltype: seq<MolType>, molblock: seq<MolBlock>,
                               grpname: seq<string>, compressedXNameIndex: seq<int>,
                               compressedXGroupNr: Option<seq<int>>)

  /** The interaction function table: which function types are two-atom chemical bonds
      (IS_CHEMBOND) and which one is SETTLE. F_NRE == |chemBond|. */
  datatype FunctionTable = FunctionTable(chemBond: seq<bool>, settle: nat)

  predicate ValidTable(table: FunctionTable) {
    table.settle < |table.chemBond|
  }

  /** Every atom references an existing residue whenever the type has residue information. */
  predicate ValidAtoms(atoms: Atoms) {
    |atoms.resinfo| > 0 ==> forall k :: 0 <= k < |atoms.atom| ==> 0 <= atoms.atom[k].resind < |atoms.resinfo|
  }

  /** An interaction list of tuples [parameter index, atom 1, ..., atom width]. */
  predicate WellShaped(l: seq<int>, width: nat) {
    |l| % (width + 1) == 0
  }

  /** A walk over a well-shaped chemical-bond list that has taken n tuples either has room for a
      whole next tuple or has taken them all. */
  lemma PairTupleBounds(l: seq<int>, n: nat)
    requires WellShaped(l, 2) && 3 * n <= |l|
    ensures 3 * n < |l| ==> 3 * n + 3 <= |l|
    ensures |l| <= 3 * n + 1 ==> n == |l| / 3
  {
  }

  /** The same for the SETTLE list, whose tuples have four entries. */
  lemma SettleTupleBounds(l: seq<int>, n: nat)
    requires WellShaped(l, 3) && 4 * n <= |l|
    ensures 4 * n < |l| ==> 4 * n + 4 <= |l|
    ensures |l| <= 4 * n + 1 ==> n == |l| / 4
  {
  }

  /** The two atom entries of every tuple of a chemical-bond list name atoms of the molecule type. */
  predicate PairAtomsInRange(l: seq<int>, natoms: int) {
    forall t :: 0 <= t < |l| && 3 * t + 2 < |l| ==> 0 <= l[3 * t + 1] < natoms && 0 <= l[3 * t + 2] < natoms
  }

  /** The three atom entries of every tuple of the SETTLE list name atoms of the molecule type. */
  predicate SettleAtomsInRange(l: seq<int>, natoms: int) {
    forall t :: 0 <= t < |l| && 4 * t + 3 < |l| ==>
      0 <= l[4 * t + 1] < natoms && 0 <= l[4 * t + 2] < natoms && 0 <= l[4 * t + 3] < natoms
  }

  /** The molecule type has one list per function type, the chemical-bond lists hold pairs and
      the SETTLE list holds triples. */
  predicate ValidMolType(mt: MolType, table: FunctionTable) {
    && ValidAtoms(mt.atoms)
    && ListsShaped(mt.ilist, table)
  }

  /** One list per function type; chemical-bond lists hold pairs, the SETTLE list triples. */
  predicate ListsShaped(ilist: seq<seq<int>>, table: FunctionTable) {
    && ValidTable(table)
    && |ilist| == |table.chemBond|
    && (forall k :: 0 <= k < |ilist| && table.chemBond[k] ==> WellShaped(ilist[k], 2))
    && WellShaped(ilist[table.settle], 3)
  }

  /** As ValidMolType, and every atom entry of those lists is an atom of the type. */
  predicate ValidMolTypeAtoms(mt: MolType, table: FunctionTable) {
    && ValidMolType(mt, table)
    && (forall k :: 0 <= k < |mt.ilist| && table.chemBond[k] ==> PairAtomsInRange(mt.ilist[k], |mt.atoms.atom|))
    && SettleAtomsInRange(mt.ilist[table.settle], |mt.atoms.atom|)
  }

  /** Every block names an existing molecule type. */
  predicate BlocksValid(top: Topology) {
    forall b :: 0 <= b < |top.molblock| ==> 0 <= top.molblock[b].moltype < |top.moltype|
  }

  /** Every block names an existing molecule type with valid atoms. */
  predicate AtomsValid(top: Topology) {
    && BlocksValid(top)
    && forall t :: 0 <= t < |top.moltype| ==> ValidAtoms(top.moltype[t].atoms)
  }

  /** What gmx_tng_add_mtop needs of a topology. */
  predicate ValidTopology(top: Topology, table: FunctionTable) {
    && BlocksValid(top)
    && forall t :: 0 <= t < |top.moltype| ==> ValidMolType(top.moltype[t], table)
  }

  function BlockType(top: Topology, b: nat): MolType
    requires BlocksValid(top) && b < |top.molblock|
  {
    top.moltype[top.molblock[b].moltype]
  }

  /** How many instances the `j < nmol` loop visits. */
  function Instances(block: MolBlock): nat {
    if block.nmol > 0 then block.nmol else 0
  }

  /** One atom as the selection molecule records it: names, and the residue key, which is
      ("", 0) when the molecule type has no residue information. */
  datatype FlatAtom = FlatAtom(name: string, atomType: string, resName: string, resId: int)

  function FlatAtomOf(atoms: Atoms, k: nat): FlatAtom
    requires ValidAtoms(atoms) && k < |atoms.atom|
  {
    var a := atoms.atom[k];
    if |atoms.resinfo| > 0 then FlatAtom(a.name, a.atomType, atoms.resinfo[a.resind].name, a.resind + 1)
    else FlatAtom(a.name, a.atomType, "", 0)
  }

  /** The atoms of one instance of a molecule type, in declaration order. */
  function InstanceAtoms(atoms: Atoms): (r: seq<FlatAtom>)
    requires ValidAtoms(atoms)
    ensures |r| == |atoms.atom|
    ensures forall k :: 0 <= k < |r| ==> r[k] == FlatAtomOf(atoms, k)
  {
    seq(|atoms.atom|, k requires 0 <= k < |atoms.atom| => FlatAtomOf(atoms, k))
  }

  function Repeat<T>(s: seq<T>, n: nat): (r: seq<T>)
    ensures |r| == n * |s|
  {
    if n == 0 then [] else Repeat(s, n - 1) + s
  }

  /** Every atom of the first b blocks, instance after instance: position g is global atom g. */
  function Flat(top: Topology, b: nat): seq<FlatAtom>
    requires AtomsValid(top)
    requires b <= |top.molblock|
    decreases 2 * b
  {
    if b == 0 then []
    else FlatUpTo(top, b - 1, Instances(top.molblock[b - 1]))
  }

  /** The atoms of the first b blocks and of the first j instances of block b. */
  function FlatUpTo(top: Topology, b: nat, j: nat): seq<FlatAtom>
    requires AtomsValid(top)
    requires b < |top.molblock|
    decreases 2 * b + 1
  {
    Flat(top, b) + Repeat(InstanceAtoms(BlockType(top, b).atoms), j)
  }

  /** Every atom of the whole system. */
  function AllAtoms(top: Topology): seq<FlatAtom>
    requires AtomsValid(top)
  {
    Flat(top, |top.molblock|)
  }

  /** What add_selection_groups needs of a topology: besides ValidTopology, interaction lists
      whose atoms are atoms of their type, at least as many blocks as molecule types (its outer
      loop runs over molecule types but indexes blocks), a group name for the compressed-output
      group and one group number per atom when numbers are present. */
  predicate ValidSelectionTopology(top: Topology, table: FunctionTable) {
    && ValidTopology(top, table)
    && (forall t :: 0 <= t < |top.moltype| ==> ValidMolTypeAtoms(top.moltype[t], table))
    && |top.moltype| <= |top.molblock|
    && |top.compressedXNameIndex| > 0
    && 0 <= top.compressedXNameIndex[0] < |top.grpname|
    && (top.compressedXGroupNr.Some? ==> |top.compressedXGroupNr.value| == |AllAtoms(top)|)
  }

  /** The name of the compressed-output selection group: grpname[*nm_ind]. */
  function SelectionGroupName(top: Topology): string
    requires |top.compressedXNameIndex| > 0 && 0 <= top.compressedXNameIndex[0] < |top.grpname|
  {
    top.grpname[top.compressedXNameIndex[0]]
  }

  /** A global atom index the group-number array covers. */
  predicate InGroupRange(top: Topology, g: int) {
    0 <= g && (top.compressedXGroupNr.Some? ==> g < |top.compressedXGroupNr.value|)
  }

  /** ggrpnr(&groups, egcCompressedX, g): 0 when no numbers are stored. Only consulted for
      indices in InGroupRange; the value outside it is never used. */
  function GroupNr(top: Topology, g: int): int {
    match top.compressedXGroupNr
    case None => 0
    case Some(nrs) => if 0 <= g < |nrs| then nrs[g] else 0
  }

  /** An atom is in the selection exactly when its group number is 0. */
  predicate Selected(top: Topology, g: int) {
    GroupNr(top, g) == 0
  }

  /** The selected global indices below n, in increasing order. */
  function SelectedIndices(top: Topology, n: nat): seq<int>
  {
    if n == 0 then [] else SelectedIndices(top, n - 1) + (if Selected(top, n - 1) then [n - 1] else [])
  }

  /** SelectedIndices lists exactly the selected indices below n, each once, in increasing order. */
  lemma {:induction false} SelectedIndicesSpec(top: Topology, n: nat)
    ensures |SelectedIndices(top, n)| <= n
    ensures forall g :: g in SelectedIndices(top, n) <==> 0 <= g < n && Selected(top, g)
    ensures forall p, q :: 0 <= p < q < |SelectedIndices(top, n)| ==> SelectedIndices(top, n)[p] < SelectedIndices(top, n)[q]
  {
    if n > 0 {
      SelectedIndicesSpec(top, n - 1);
      var prev := SelectedIndices(top, n - 1);
      forall p | 0 <= p < |prev| ensures prev[p] < n - 1 {
        assert prev[p] in prev;
      }
    }
  }

  /** Any atom among the n atoms from offset on is selected. */
  predicate AnySelected(top: Topology, offset: int, n: nat) {
    n > 0 && (AnySelected(top, offset, n - 1) || Selected(top, offset + n - 1))
  }

  /** The atoms of a prefix of the blocks are a prefix of the atoms of a longer one. */
  lemma {:induction false} FlatPrefix(top: Topology, b: nat, c: nat)
    requires AtomsValid(top) && b <= c <= |top.molblock|
    ensures Flat(top, b) <= Flat(top, c)
    decreases c
  {
    if b < c {
      FlatPrefix(top, b, c - 1);
      RepeatPrefix(InstanceAtoms(BlockType(top, c - 1).atoms), 0, Instances(top.molblock[c - 1]));
    }
  }

  lemma {:induction false} RepeatPrefix<T>(s: seq<T>, m: nat, n: nat)
    requires m <= n
    ensures Repeat(s, m) <= Repeat(s, n)
    decreases n
  {
    if m < n {
      RepeatPrefix(s, m, n - 1);
    }
  }

  /** The atoms of instance j of block b lie inside the system. */
  lemma InstanceInside(top: Topology, b: nat, j: nat)
    requires AtomsValid(top) && b < |top.molblock| && j < Instances(top.molblock[b])
    ensures FlatUpTo(top, b, j + 1) == FlatUpTo(top, b, j) + InstanceAtoms(BlockType(top, b).atoms)
    ensures FlatUpTo(top, b, j + 1) <= Flat(top, b + 1)
    ensures Flat(top, b + 1) <= AllAtoms(top)
  {
    RepeatPrefix(InstanceAtoms(BlockType(top, b).atoms), j + 1, Instances(top.molblock[b]));
    FlatPrefix(top, b + 1, |top.molblock|);
  }
}
