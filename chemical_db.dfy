/** The seed inventory (data/chemicalDb.ts): four constant category lists. */
module ChemicalDb {
  import opened Types

  /** One literal seed entry: every seed molecule has a cid, a name, a SMILES string and
      five descriptors (weight, logP, donor and acceptor counts, formula); none has a
      rotatable-bond count, a TPSA, an InChI or safety data. */
  function Seed(cid: int, name: string, smiles: string, weight: real, logP: real,
                donors: int, acceptors: int, formula: string): Molecule
  {
    Molecule(Some(cid), Some(name), smiles, None,
             Properties(Some(weight), Some(logP), Some(donors), Some(acceptors), None, Some(formula), None),
             None)
  }

  const CommonSolvents: seq<Molecule> := [
    Seed(180, "Acetone", "CC(=O)C", 58.08, -0.2, 0, 1, "C3H6O"),
    Seed(174, "Ethylene Glycol", "C(CO)O", 62.07, -1.4, 2, 2, "C2H6O2"),
    Seed(8028, "THF (Tetrahydrofuran)", "C1CCOC1", 72.11, 0.5, 0, 1, "C4H8O"),
    Seed(702, "Ethanol", "CCO", 46.07, -0.3, 1, 1, "C2H6O"),
    Seed(6344, "Dichloromethane", "C(Cl)Cl", 84.93, 1.3, 0, 0, "CH2Cl2"),
    Seed(1140, "Toluene", "CC1=CC=CC=C1", 92.14, 2.7, 0, 0, "C7H8"),
    Seed(679, "DMSO", "CS(=O)C", 78.13, -1.3, 0, 1, "C2H6OS"),
    Seed(6228, "DMF", "CN(C)C=O", 73.09, -1.0, 0, 1, "C3H7NO"),
    Seed(6341, "Acetonitrile", "CC#N", 41.05, -0.3, 0, 1, "C2H3N"),
    Seed(176, "Acetic Acid", "CC(=O)O", 60.05, -0.17, 1, 2, "C2H4O2")
  ]

  const AcidsAndBases: seq<Molecule> := [
    Seed(1118, "Sulfuric Acid", "OS(=O)(=O)O", 98.08, -2.2, 2, 4, "H2SO4"),
    Seed(313, "Hydrochloric Acid", "Cl", 36.46, 0.0, 1, 0, "HCl"),
    Seed(14798, "Sodium Hydroxide", "[OH-].[Na+]", 39.997, -1.4, 1, 1, "HNaO"),
    Seed(222, "Ammonia", "N", 17.031, -0.6, 3, 1, "H3N"),
    Seed(8471, "Triethylamine", "CCN(CC)CC", 101.19, 1.4, 0, 1, "C6H15N"),
    Seed(1049, "Pyridine", "C1=CC=NC=C1", 79.1, 0.6, 0, 1, "C5H5N"),
    Seed(24357, "Potassium Carbonate", "[K+].[K+].[C-](=O)([O-])[O-]", 138.2, -1.0, 0, 3, "CK2O3"),
    Seed(23662, "Sodium Bicarbonate", "C(=O)(O)[O-].[Na+]", 84.007, -0.3, 1, 3, "CHNaO3")
  ]

  const OrganicBuildingBlocks: seq<Molecule> := [
    Seed(241, "Benzene", "C1=CC=CC=C1", 78.11, 2.1, 0, 0, "C6H6"),
    Seed(1049, "Aniline", "C1=CC=C(C=C1)N", 93.13, 0.9, 2, 1, "C6H7N"),
    Seed(996, "Phenol", "C1=CC=C(C=C1)O", 94.11, 1.5, 1, 1, "C6H6O"),
    Seed(240, "Benzaldehyde", "C1=CC=CC=C1C=O", 106.12, 1.5, 0, 1, "C7H6O"),
    Seed(338, "Salicylic Acid", "C1=CC=C(C(=C1)C(=O)O)O", 138.12, 2.3, 2, 3, "C7H6O3"),
    Seed(785, "Nitrobenzene", "C1=CC=C(C=C1)[N+](=O)[O-]", 123.11, 1.8, 0, 2, "C6H5NO2"),
    Seed(7496, "Guaiacol", "COC1=CC=CC=C1O", 124.14, 1.3, 1, 2, "C7H8O2"),
    Seed(4624, "Succinic Anhydride", "C1CC(=O)OC1=O", 100.07, -0.4, 0, 3, "C4H4O3")
  ]

  const CatalystsAndAdditives: seq<Molecule> := [
    Seed(1119, "Palladium on Carbon", "[Pd]", 106.42, 0.0, 0, 0, "Pd"),
    Seed(14724, "Sodium Borohydride", "[BH4-].[Na+]", 37.83, -1.0, 0, 0, "H4BNa"),
    Seed(23675, "Lithium Aluminum Hydride", "[Li+].[AlH4-]", 37.95, -1.0, 0, 0, "H4AlLi"),
    Seed(8023, "Triphenylphosphine", "C1=CC=C(C=C1)P(C2=CC=CC=C2)C3=CC=CC=C3", 262.29, 5.7, 0, 0, "C18H15P")
  ]

  /** All seed entries, category after category. */
  function AllSeeds(): seq<Molecule> {
    CommonSolvents + AcidsAndBases + OrganicBuildingBlocks + CatalystsAndAdditives
  }

  predicate WellFormedSeed(m: Molecule) {
    Truthy(m.cid) && m.smiles != [] && m.properties.formula.Some?
  }

  lemma SeedListSizes()
    ensures |CommonSolvents| == 10 && |AcidsAndBases| == 8
    ensures |OrganicBuildingBlocks| == 8 && |CatalystsAndAdditives| == 4
    ensures |AllSeeds()| == 30
  {
  }

  /** Every seed entry carries a non-zero cid, a non-empty SMILES string and a formula. */
  lemma SeedsWellFormed()
    ensures forall i | 0 <= i < |AllSeeds()| :: WellFormedSeed(AllSeeds()[i])
  {
  }

  /** No two entries of ms share a SMILES string. */
  predicate SmilesDistinct(ms: seq<Molecule>) {
    forall i, j | 0 <= i < j < |ms| :: ms[i].smiles != ms[j].smiles
  }

  /** No entry of a shares its SMILES string with an entry of b. */
  predicate SmilesApart(a: seq<Molecule>, b: seq<Molecule>) {
    forall i, j | 0 <= i < |a| && 0 <= j < |b| :: a[i].smiles != b[j].smiles
  }

  lemma DistinctConcat(a: seq<Molecule>, b: seq<Molecule>)
    requires SmilesDistinct(a) && SmilesDistinct(b) && SmilesApart(a, b)
    ensures SmilesDistinct(a + b)
  {
    forall i, j | 0 <= i < j < |a + b|
      ensures (a + b)[i].smiles != (a + b)[j].smiles
    {
      if j < |a| {
        assert (a + b)[i] == a[i] && (a + b)[j] == a[j];
      } else if i < |a| {
        assert (a + b)[i] == a[i] && (a + b)[j] == b[j - |a|];
      } else {
        assert (a + b)[i] == b[i - |a|] && (a + b)[j] == b[j - |a|];
      }
    }
  }

  lemma ApartConcat(a: seq<Molecule>, b: seq<Molecule>, c: seq<Molecule>)
    requires SmilesApart(a, c) && SmilesApart(b, c)
    ensures SmilesApart(a + b, c)
  {
    forall i, j | 0 <= i < |a + b| && 0 <= j < |c|
      ensures (a + b)[i].smiles != c[j].smiles
    {
      if i < |a| {
        assert (a + b)[i] == a[i];
      } else {
        assert (a + b)[i] == b[i - |a|];
      }
    }
  }

  lemma SolventsDistinct() ensures SmilesDistinct(CommonSolvents) {
    var ms := CommonSolvents;
    forall i, j | 0 <= i < j < |ms| ensures ms[i].smiles != ms[j].smiles {
      assert ProbesDiffer(ms[i].smiles, ms[j].smiles);
    }
  }
  /** A cheap witness that two strings differ: their lengths, or the characters at one of
      a few probe positions (the first, the second, the eighth, the last). */
  predicate ProbesDiffer(x: string, y: string) {
    || |x| != |y|
    || (x != [] && y != [] && (x[0] != y[0] || x[|x| - 1] != y[|y| - 1]))
    || (|x| > 1 && |y| > 1 && x[1] != y[1])
    || (|x| > 7 && |y| > 7 && x[7] != y[7])
  }

  lemma AcidsDistinct() ensures SmilesDistinct(AcidsAndBases) {
    var ms := AcidsAndBases;
    forall i, j | 0 <= i < j < |ms| ensures ms[i].smiles != ms[j].smiles {
      assert ProbesDiffer(ms[i].smiles, ms[j].smiles);
    }
  }
  lemma BlocksDistinct() ensures SmilesDistinct(OrganicBuildingBlocks) {
    var ms := OrganicBuildingBlocks;
    forall i, j | 0 <= i < j < |ms| ensures ms[i].smiles != ms[j].smiles {
      assert ProbesDiffer(ms[i].smiles, ms[j].smiles);
    }
  }
  lemma CatalystsDistinct() ensures SmilesDistinct(CatalystsAndAdditives) {
    var ms := CatalystsAndAdditives;
    forall i, j | 0 <= i < j < |ms| ensures ms[i].smiles != ms[j].smiles {
      assert ProbesDiffer(ms[i].smiles, ms[j].smiles);
    }
  }
  lemma SolventsAcidsApart() ensures SmilesApart(CommonSolvents, AcidsAndBases) {}
  lemma SolventsBlocksApart() ensures SmilesApart(CommonSolvents, OrganicBuildingBlocks) {}
  lemma AcidsBlocksApart() ensures SmilesApart(AcidsAndBases, OrganicBuildingBlocks) {}
  lemma SolventsCatalystsApart() ensures SmilesApart(CommonSolvents, CatalystsAndAdditives) {}
  lemma AcidsCatalystsApart() ensures SmilesApart(AcidsAndBases, CatalystsAndAdditives) {}
  lemma BlocksCatalystsApart() ensures SmilesApart(OrganicBuildingBlocks, CatalystsAndAdditives) {}

  /** No two seed entries share a SMILES string. */
  lemma SeedSmilesDistinct()
    ensures SmilesDistinct(AllSeeds())
  {
    var s, a, o, c := CommonSolvents, AcidsAndBases, OrganicBuildingBlocks, CatalystsAndAdditives;
    SolventsDistinct(); AcidsDistinct(); BlocksDistinct(); CatalystsDistinct();
    SolventsAcidsApart(); SolventsBlocksApart(); AcidsBlocksApart();
    SolventsCatalystsApart(); AcidsCatalystsApart(); BlocksCatalystsApart();
    DistinctConcat(s, a);
    ApartConcat(s, a, o);
    DistinctConcat(s + a, o);
    ApartConcat(s, a, c);
    ApartConcat(s + a, o, c);
    DistinctConcat(s + a + o, c);
  }

  const Pyridine := AcidsAndBases[5]
  const Aniline := OrganicBuildingBlocks[1]

  /** The seed cids are not distinct: Pyridine and Aniline both carry 1049 while their
      SMILES strings differ. */
  lemma SeedCidShared()
    ensures Pyridine.name == Some("Pyridine") && Aniline.name == Some("Aniline")
    ensures Pyridine.cid == Aniline.cid == Some(1049)
    ensures Pyridine.smiles != Aniline.smiles
  {
  }
}
