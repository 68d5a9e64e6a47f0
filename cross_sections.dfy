/** The inelastic cross-section lookup (`InteractionCrossSections.get_cs`):
    a tabulated projectile answers with its own vector, any other species
    borrows the vector of a representative of its group. */
module ScalarTables {
  import opened Wrappers
  import opened Settings
  import opened Store
  import opened Matrices

  /** hbar c in GeV fm. */
  const GeVfm: real := 0.19732696312541853
  /** hbar c in GeV cm. */
  const GeVcm: real := GeVfm * 0.0000000000001
  /** GeV^2 mbarn. */
  const GeV2mbarn: real := 10.0 * GeVfm * GeVfm
  /** The conversion from mbarn to cm^2. */
  const Mbarn2cm2: real := GeVcm * GeVcm / GeV2mbarn

  /** In exact arithmetic the conversion is 10^-27 cm^2 per mbarn. */
  lemma Mbarn2cm2Exact()
    ensures Mbarn2cm2 == 0.000000000000000000000000001
  {
    var f := GeVfm;
    assert f > 0.0;
    calc {
      Mbarn2cm2;
      (f * 0.0000000000001) * (f * 0.0000000000001) / (10.0 * f * f);
      (f * f) * 0.00000000000000000000000001 / ((f * f) * 10.0);
      0.00000000000000000000000001 / 10.0;
    }
  }

  /** `np.zeros_like(v)` */
  function ZerosLike(v: seq<real>): (r: seq<real>)
    ensures |r| == |v| && forall i | 0 <= i < |v| :: r[i] == 0.0
  {
    seq(|v|, _ => 0.0)
  }

  /** The species groups of the fallback, in the order they are tried. */
  datatype Group = Tabulated | CharmedMeson | CharmedBaryon | Baryon | Lepton | Other

  function GroupOf(indexD: map<int, seq<real>>, parent: int): Group {
    var a := if parent < 0 then -parent else parent;
    if parent in indexD then Tabulated
    else if a in [411, 421, 431] then CharmedMeson
    else if a in [4332, 4232, 4132] then CharmedBaryon
    else if 2000 < a < 5000 then Baryon
    else if 5 < a < 23 then Lepton
    else Other
  }

  /** The species whose table a group borrows: charged kaon, proton,
      proton, proton (for the shape of the zero vector), charged pion. */
  function Representative(g: Group, parent: int): int {
    match g
    case Tabulated => parent
    case CharmedMeson => 321
    case CharmedBaryon => 2212
    case Baryon => 2212
    case Lepton => 2212
    case Other => 211
  }

  /** `get_cs`: the vector in mbarn or, by default, in cm^2. A missing
      representative raises a KeyError. */
  function GetCs(indexD: map<int, seq<real>>, parent: int, mbarn: bool): Result<seq<real>> {
    var scale := if mbarn then 1.0 else Mbarn2cm2;
    var a := if parent < 0 then -parent else parent;
    if parent in indexD then Ok(Scaled(scale, indexD[parent]))
    else if a in [411, 421, 431] then
      if 321 in indexD then Ok(Scaled(scale, indexD[321])) else Err(KeyError)
    else if a in [4332, 4232, 4132] then
      if 2212 in indexD then Ok(Scaled(scale, indexD[2212])) else Err(KeyError)
    else if 2000 < a < 5000 then
      if 2212 in indexD then Ok(Scaled(scale, indexD[2212])) else Err(KeyError)
    else if 5 < a < 23 then
      if 2212 in indexD then Ok(ZerosLike(indexD[2212])) else Err(KeyError)
    else
      if 211 in indexD then Ok(Scaled(scale, indexD[211])) else Err(KeyError)
  }

  /** The lookup fails exactly when the representative of the species is
      not tabulated; a hadron gets its representative's scaled vector and a
      lepton zeros of the proton vector's length. */
  lemma GetCsByGroup(indexD: map<int, seq<real>>, parent: int, mbarn: bool)
    ensures var g := GroupOf(indexD, parent);
      var rep := Representative(g, parent);
      var scale := if mbarn then 1.0 else Mbarn2cm2;
      && (GetCs(indexD, parent, mbarn).Ok? <==> rep in indexD)
      && (GetCs(indexD, parent, mbarn).Err? ==> GetCs(indexD, parent, mbarn).error == KeyError)
      && (rep in indexD && g != Lepton ==> GetCs(indexD, parent, mbarn) == Ok(Scaled(scale, indexD[rep])))
      && (rep in indexD && g == Lepton ==> GetCs(indexD, parent, mbarn) == Ok(ZerosLike(indexD[2212])))
  {
  }

  /** A species that is not tabulated shares its representative's cross
      section (the representatives 321, 2212 and 211 are their own group
      whenever they are tabulated). */
  lemma FallbackIsRepresentative(indexD: map<int, seq<real>>, parent: int, mbarn: bool)
    requires GroupOf(indexD, parent) !in {Tabulated, Lepton}
    requires Representative(GroupOf(indexD, parent), parent) in indexD
    ensures GetCs(indexD, parent, mbarn) == GetCs(indexD, Representative(GroupOf(indexD, parent), parent), mbarn)
  {
  }

  /** The two units agree: the cm^2 vector is the mbarn vector times the
      conversion, for every species including the zero vector of a
      lepton. */
  lemma UnitsAgree(indexD: map<int, seq<real>>, parent: int)
    ensures GetCs(indexD, parent, false).Ok? <==> GetCs(indexD, parent, true).Ok?
    ensures GetCs(indexD, parent, true).Ok? ==>
      GetCs(indexD, parent, false).value == Scaled(Mbarn2cm2, GetCs(indexD, parent, true).value)
  {
    GetCsByGroup(indexD, parent, true);
    GetCsByGroup(indexD, parent, false);
    var g := GroupOf(indexD, parent);
    var rep := Representative(g, parent);
    if rep in indexD {
      if g == Lepton {
        ScaleZeros(Mbarn2cm2, indexD[2212]);
      } else {
        ScaledOne(indexD[rep]);
      }
    }
  }

  lemma ScaleZeros(s: real, v: seq<real>)
    ensures Scaled(s, ZerosLike(v)) == ZerosLike(v)
  {
  }

  /** On the index `cs_db` builds every listed projectile is tabulated, so
      its cross section is its own column. */
  lemma StoredProjectileOwnColumn(db: Db, mname: string, cfg: Config, parent: int, mbarn: bool)
    requires CrossSectionIndex(db, mname, cfg).Ok?
    requires parent in CrossSectionIndex(db, mname, cfg).value.parents
    ensures var x := CrossSectionIndex(db, mname, cfg).value;
      parent in x.indexD && GetCs(x.indexD, parent, mbarn) == Ok(Scaled(if mbarn then 1.0 else Mbarn2cm2, x.indexD[parent]))
  {
    CrossSectionIndexExact(db, mname, cfg);
  }
}
