/** The store accessors of `HDF5Backend`: the interaction index (with the
    electromagnetic matrices merged in), the decay index (with the helicity
    dependent muon decays swapped in), the cross-section index and the
    continuous-loss index. The file is an in-memory value here, already cut
    to the energy range. */
module Store {
  import opened Wrappers
  import opened Pdg
  import opened Matrices
  import opened Records
  import opened Tables
  import opened Settings

  /** One stored matrix group: its records and the reconstruction of their
      blocks (the `_indptrs` companion is folded into `dense`). */
  datatype Table = Table(group: RecordGroup, dense: Dense)

  /** A one-dimensional dataset per code, in the stored order: a
      cross-section table (projectile, column) or a loss group (code, row). */
  type Column = (int, seq<real>)

  /** The `electromagnetic` group: its matrices, its cross sections and the
      `dEdX 11` / `dEdX -11` loss rows keyed by 11 and -11. */
  datatype EmGroup = EmGroup(mats: Table, cs: seq<Column>, dEdX: map<int, seq<real>>)

  /** The store file. */
  datatype Db = Db(
    hadronic: map<string, Table>,
    decays: map<string, Table>,
    crossSections: map<string, seq<Column>>,
    losses: map<string, seq<Column>>,
    electromagnetic: Option<EmGroup>)

  // Interactions

  /** The equivalence tables, keyed by bare integers. */
  const SibyllEquivalences: map<Key, Key> :=
    map[Code(130) := Code(310), Code(3212) := Code(3122), Code(-3212) := Code(-3122)]

  const QgsjetEquivalences: map<Key, Key> :=
    map[Code(-2212) := Code(2212), Code(-2112) := Code(2212), Code(-211) := Code(211),
        Code(-321) := Code(321), Code(130) := Code(321), Code(310) := Code(321),
        Code(2112) := Code(2212)]

  /** The table a model name selects; a name with neither family in it
      leaves the table unbound, which raises when it is used. */
  function EquivalencesFor(mname: string): (r: Result<map<Key, Key>>)
    ensures r.Err? <==> !HasSubstring(mname, "SIBYLL") && !HasSubstring(mname, "QGSJET")
    ensures r.Err? ==> r.error == UnboundEquivalences
    ensures r.Ok? ==> forall k | k in r.value :: k.Code?
  {
    if HasSubstring(mname, "SIBYLL") then Ok(SibyllEquivalences)
    else if HasSubstring(mname, "QGSJET") then Ok(QgsjetEquivalences)
    else Err(UnboundEquivalences)
  }

  /** Merging the electromagnetic index into the hadronic one: parents are
      concatenated and sorted (duplicates stay), particles are united and
      sorted, and relations and matrices of the second index override those
      of the first. */
  function MergeEm(had: Index, em: Index): (r: Index)
    ensures NonDecreasing(r.parents) && multiset(r.parents) == multiset(had.parents) + multiset(em.parents)
    ensures Ascending(r.particles) && Elems(r.particles) == Elems(had.particles) + Elems(em.particles)
    ensures r.relations.Keys == had.relations.Keys + em.relations.Keys
    ensures forall p | p in r.relations :: r.relations[p] == if p in em.relations then em.relations[p] else had.relations[p]
    ensures r.indexD.Keys == had.indexD.Keys + em.indexD.Keys
    ensures forall ch | ch in r.indexD :: r.indexD[ch] == if ch in em.indexD then em.indexD[ch] else had.indexD[ch]
    ensures r.description == had.description
  {
    ElemsAppend(had.particles, em.particles);
    Index(SortSeq(had.parents + em.parents), SortSet(Elems(had.particles + em.particles)),
      had.relations + em.relations, had.indexD + em.indexD, had.description)
  }

  /** The model name appended to the description, on a line of its own. */
  function Described(d: Option<string>, mname: string): (r: Option<string>)
    ensures r.Some?
    ensures |r.value| >= |mname| && r.value[|r.value| - |mname|..] == mname
    ensures d.Some? ==> |r.value| > |d.value| && r.value[..|d.value| + 1] == d.value + "\n"
    ensures d.None? ==> r.value == "Interaction model name: " + mname
  {
    match d
    case Some(s) =>
      var t := s + "\nInteraction model name: " + mname;
      assert t[..|s| + 1] == s + "\n";
      Some(t)
    case None => Some("Interaction model name: " + mname)
  }

  /** The index of a selected model with the given equivalence table. */
  function ModelIndex(db: Db, mname: string, cfg: Config, eqv: map<Key, Key>): Result<Index>
    requires mname in db.hadronic
  {
    var t := db.hadronic[mname];
    WithEm(db, mname, cfg, DbDictionary(t.group, cfg.disabledParticles, eqv, t.dense))
  }

  /** The electromagnetic merge and the description, after the hadronic
      dictionary. */
  function WithEm(db: Db, mname: string, cfg: Config, hadronic: Result<Index>): Result<Index> {
    var had :- hadronic;
    var merged :-
      if !cfg.enableEm then Ok(had)
      else if db.electromagnetic.None? then Err(UnknownSelection)
      else
        var mats := db.electromagnetic.value.mats;
        var em :- DbDictionary(mats.group, cfg.disabledParticles, map[], mats.dense);
        Ok(MergeEm(had, em));
    Ok(merged.(description := Described(merged.description, mname)))
  }

  /** `interaction_db` (the model name is taken already normalised). */
  function InteractionIndex(db: Db, mname: string, cfg: Config): Result<Index> {
    if mname !in db.hadronic then Err(UnknownSelection)
    else
      var eqv :- EquivalencesFor(mname);
      ModelIndex(db, mname, cfg, eqv)
  }

  /** The interaction index is built for a stored model whose name selects an
      equivalence table, and it names the model at the end of its
      description. */
  lemma InteractionIndexSelects(db: Db, mname: string, cfg: Config)
    ensures mname !in db.hadronic ==> InteractionIndex(db, mname, cfg) == Err(UnknownSelection)
    ensures mname in db.hadronic && !HasSubstring(mname, "SIBYLL") && !HasSubstring(mname, "QGSJET")
      ==> InteractionIndex(db, mname, cfg) == Err(UnboundEquivalences)
    ensures InteractionIndex(db, mname, cfg).Ok? ==>
      var d := InteractionIndex(db, mname, cfg).value.description;
      d.Some? && |d.value| >= |mname| && d.value[|d.value| - |mname|..] == mname
  {
  }

  /** The equivalence tables are keyed by bare integers while every stored
      parent is a (code, tag) pair, so the selected table never links a
      matrix: the index is the one built without equivalences. */
  lemma InteractionEquivalencesInert(db: Db, mname: string, cfg: Config)
    requires mname in db.hadronic && EquivalencesFor(mname).Ok?
    ensures InteractionIndex(db, mname, cfg) == ModelIndex(db, mname, cfg, map[])
  {
    ModelIgnoresEquivalences(db, mname, cfg, EquivalencesFor(mname).value);
  }

  lemma ModelIgnoresEquivalences(db: Db, mname: string, cfg: Config, eqv: map<Key, Key>)
    requires mname in db.hadronic && forall k | k in eqv :: k.Code?
    ensures ModelIndex(db, mname, cfg, eqv) == ModelIndex(db, mname, cfg, map[])
  {
    var t := db.hadronic[mname];
    DictionaryIgnoresIntKeyedEquivalences(t.group, cfg.disabledParticles, eqv, t.dense);
  }

  /** Every parent, particle, relation key and child of an index is a
      (code, tag) pair. */
  ghost predicate PairKeyed(x: Index) {
    && (forall p | p in x.parents :: p.Pair?)
    && (forall p | p in x.particles :: p.Pair?)
    && (forall p | p in x.relations :: p.Pair?)
    && (forall p, c | p in x.relations && c in x.relations[p] :: c.Pair?)
  }

  lemma PlainDictionaryPairKeyed(g: RecordGroup, exclude: seq<int>, dense: Dense)
    requires DbDictionary(g, exclude, map[], dense).Ok?
    ensures PairKeyed(DbDictionary(g, exclude, map[], dense).value)
  {
    PlainDictionaryHasPairKeys(g, exclude, dense);
    RelationKeysAreParents(g, exclude, dense);
  }

  /** Merging keeps an index pair-keyed. */
  lemma MergePairKeyed(had: Index, em: Index)
    requires PairKeyed(had) && PairKeyed(em)
    ensures PairKeyed(MergeEm(had, em))
  {
    var x := MergeEm(had, em);
    forall p | p in x.parents ensures p.Pair? {
      assert p in multiset(x.parents);
    }
  }

  lemma ModelPairKeyed(db: Db, mname: string, cfg: Config)
    requires mname in db.hadronic && ModelIndex(db, mname, cfg, map[]).Ok?
    ensures PairKeyed(ModelIndex(db, mname, cfg, map[]).value)
  {
    var t := db.hadronic[mname];
    var had := DbDictionary(t.group, cfg.disabledParticles, map[], t.dense);
    PlainDictionaryPairKeyed(t.group, cfg.disabledParticles, t.dense);
    if cfg.enableEm {
      var mats := db.electromagnetic.value.mats;
      PlainDictionaryPairKeyed(mats.group, cfg.disabledParticles, mats.dense);
      MergePairKeyed(had.value, DbDictionary(mats.group, cfg.disabledParticles, map[], mats.dense).value);
    }
  }

  /** Every parent, particle and child of the interaction index is a
      (code, tag) pair, so each of them can be indexed. */
  lemma InteractionKeysArePairs(db: Db, mname: string, cfg: Config)
    requires InteractionIndex(db, mname, cfg).Ok?
    ensures PairKeyed(InteractionIndex(db, mname, cfg).value)
  {
    InteractionEquivalencesInert(db, mname, cfg);
    ModelPairKeyed(db, mname, cfg);
  }

  /** The relation keys of a dictionary are its parents. */
  lemma RelationKeysAreParents(g: RecordGroup, exclude: seq<int>, dense: Dense)
    requires DbDictionary(g, exclude, map[], dense).Ok?
    ensures var x := DbDictionary(g, exclude, map[], dense).value;
      forall p | p in x.relations :: p in x.parents
  {
    var s := Fold(g, exclude, map[], dense, |g.records|).value;
    FoldOwned(g, exclude, dense, |g.records|);
  }

  /** The loop-free body of `interaction_db`, reading both groups with the
      record loop. */
  method InteractionDb(db: Db, mname: string, cfg: Config) returns (r: Result<Index>)
    ensures r == InteractionIndex(db, mname, cfg)
  {
    if mname !in db.hadronic {
      return Err(UnknownSelection);
    }
    var eqv: map<Key, Key>;
    if HasSubstring(mname, "SIBYLL") {
      eqv := SibyllEquivalences;
    } else if HasSubstring(mname, "QGSJET") {
      eqv := QgsjetEquivalences;
    } else {
      return Err(UnboundEquivalences);
    }
    var t := db.hadronic[mname];
    var had := GenDbDictionary(t.group, cfg.disabledParticles, eqv, t.dense);
    if had.Err? {
      return Err(had.error);
    }
    var index := had.value;
    if cfg.enableEm {
      if db.electromagnetic.None? {
        return Err(UnknownSelection);
      }
      var mats := db.electromagnetic.value.mats;
      var em := GenDbDictionary(mats.group, cfg.disabledParticles, map[], mats.dense);
      if em.Err? {
        return Err(em.error);
      }
      index := MergeEm(index, em.value);
    }
    return Ok(index.(description := Described(index.description, mname)));
  }

  // Decays

  /** The four two-body muon channels the helicity dependent table drops. */
  const MuonChannels: seq<Channel> := [
    (Pair(211, 0), Pair(-13, 0)), (Pair(-211, 0), Pair(13, 0)),
    (Pair(321, 0), Pair(-13, 0)), (Pair(-321, 0), Pair(13, 0))]

  /** `dict.pop(k)`, which raises on a missing key. */
  function Pop(m: map<Channel, Mat>, k: Channel): Result<map<Channel, Mat>> {
    if k in m then Ok(m - {k}) else Err(KeyError)
  }

  /** The relations, parents and particles rebuilt from a channel index. */
  function Rebuilt(indexD: map<Channel, Mat>, description: Option<string>): Index {
    var order := ChannelOrder(indexD.Keys);
    var rel := Regroup(order);
    Index(SortSet(rel.Keys), SortSet(Elems(Ends(order))), rel, indexD, description)
  }

  /** `decay_db`. */
  function DecayIndex(db: Db, dset: string, cfg: Config): Result<Index> {
    if dset !in db.decays then Err(UnknownSelection)
    else
      var t := db.decays[dset];
      var dec :- DbDictionary(t.group, cfg.disabledParticles, map[], t.dense);
      if !cfg.muonHelicityDependence then Ok(dec)
      else if "custom_decays" !in db.decays then Err(KeyError)
      else
        var c := db.decays["custom_decays"];
        var custom :- DbDictionary(c.group, cfg.disabledParticles, map[], c.dense);
        HelicityIndex(dec, custom)
  }

  /** The rebuilt index relates exactly the channels it holds. */
  lemma RebuiltChannels(indexD: map<Channel, Mat>, description: Option<string>)
    ensures var x := Rebuilt(indexD, description);
      forall p, c :: (p, c) in indexD <==> p in x.relations && c in x.relations[p]
  {
    RegroupExact(ChannelOrder(indexD.Keys));
  }

  /** The rebuilt parents are the relation keys in order. */
  lemma RebuiltParents(indexD: map<Channel, Mat>, description: Option<string>)
    ensures var x := Rebuilt(indexD, description);
      Ascending(x.parents) && Elems(x.parents) == x.relations.Keys
  {
  }

  /** The rebuilt particles are the parents with their children, in order. */
  lemma RebuiltParticles(indexD: map<Channel, Mat>, description: Option<string>)
    ensures var x := Rebuilt(indexD, description);
      Ascending(x.particles) && Elems(x.particles) == Reach(x.relations)
  {
    var order := ChannelOrder(indexD.Keys);
    RegroupExact(order);
    var x := Rebuilt(indexD, description);
    assert x.particles == SortSet(Elems(Ends(order)));
  }

  /** The four muon pops, one after the other. */
  function PopMuon(merged: map<Channel, Mat>): Result<map<Channel, Mat>> {
    var m1 :- Pop(merged, MuonChannels[0]);
    var m2 :- Pop(m1, MuonChannels[1]);
    var m3 :- Pop(m2, MuonChannels[2]);
    Pop(m3, MuonChannels[3])
  }

  /** The pops fail exactly when a muon channel is missing and otherwise
      remove those four channels and nothing else. */
  lemma PopMuonExact(merged: map<Channel, Mat>)
    ensures PopMuon(merged).Ok? <==> forall k | k in MuonChannels :: k in merged
    ensures PopMuon(merged).Err? ==> PopMuon(merged).error == KeyError
    ensures PopMuon(merged).Ok? ==> PopMuon(merged).value == merged - Set4()
  {
    var k0, k1, k2, k3 := MuonChannels[0], MuonChannels[1], MuonChannels[2], MuonChannels[3];
    assert forall k | k in MuonChannels :: k == k0 || k == k1 || k == k2 || k == k3;
    if k0 in merged && k1 in merged && k2 in merged && k3 in merged {
      assert PopMuon(merged) == Ok(merged - {k0} - {k1} - {k2} - {k3});
      assert merged - {k0} - {k1} - {k2} - {k3} == merged - Set4();
    }
  }

  /** The four muon channels as a set. */
  function Set4(): (r: set<Channel>)
    ensures forall k :: k in r <==> k in MuonChannels
  {
    {MuonChannels[0], MuonChannels[1], MuonChannels[2], MuonChannels[3]}
  }

  /** The helicity dependent decay index: custom matrices override, the four
      two-body muon channels are dropped and the rest is rebuilt. */
  function HelicityIndex(dec: Index, custom: Index): Result<Index> {
    var m4 :- PopMuon(dec.indexD + custom.indexD);
    Ok(Rebuilt(m4, dec.description))
  }

  /** With helicity dependence the index fails exactly when one of the four
      muon channels is missing from the merged tables; otherwise it holds
      every merged matrix but those four, the custom one where both have it. */
  lemma HelicityIndexExact(dec: Index, custom: Index)
    ensures HelicityIndex(dec, custom).Ok? <==> forall k | k in MuonChannels :: k in dec.indexD || k in custom.indexD
    ensures HelicityIndex(dec, custom).Err? ==> HelicityIndex(dec, custom).error == KeyError
    ensures HelicityIndex(dec, custom).Ok? ==>
      var x := HelicityIndex(dec, custom).value;
      && x.indexD.Keys == (dec.indexD.Keys + custom.indexD.Keys) - Set4()
      && (forall ch | ch in x.indexD :: x.indexD[ch] == if ch in custom.indexD then custom.indexD[ch] else dec.indexD[ch])
      && x.description == dec.description
  {
    PopMuonExact(dec.indexD + custom.indexD);
  }

  /** Pops the four muon channels one after the other, as the source does. */
  method PopMuonChannels(merged: map<Channel, Mat>) returns (r: Result<map<Channel, Mat>>)
    ensures r == PopMuon(merged)
  {
    var m := merged;
    m :- Pop(m, (Pair(211, 0), Pair(-13, 0)));
    m :- Pop(m, (Pair(-211, 0), Pair(13, 0)));
    m :- Pop(m, (Pair(321, 0), Pair(-13, 0)));
    m :- Pop(m, (Pair(-321, 0), Pair(13, 0)));
    return Ok(m);
  }

  /** The body of `decay_db`, reading the groups with the record loop and
      rebuilding the relations with the regrouping loop. */
  method DecayDb(db: Db, dset: string, cfg: Config) returns (r: Result<Index>)
    ensures r == DecayIndex(db, dset, cfg)
  {
    if dset !in db.decays {
      return Err(UnknownSelection);
    }
    var t := db.decays[dset];
    var dec := GenDbDictionary(t.group, cfg.disabledParticles, map[], t.dense);
    if dec.Err? || !cfg.muonHelicityDependence {
      return dec;
    }
    if "custom_decays" !in db.decays {
      return Err(KeyError);
    }
    var c := db.decays["custom_decays"];
    var custom := GenDbDictionary(c.group, cfg.disabledParticles, map[], c.dense);
    if custom.Err? {
      return Err(custom.error);
    }
    var popped := PopMuonChannels(dec.value.indexD + custom.value.indexD);
    if popped.Err? {
      return Err(popped.error);
    }
    var indexD := popped.value;
    var order := ChannelOrder(indexD.Keys);
    var relations, particles := RegroupChannels(order);
    return Ok(Index(SortSet(relations.Keys), SortSet(Elems(particles)), relations, indexD, dec.value.description));
  }

  // Cross sections

  /** The codes of a list of columns, in order. */
  function Codes(cols: seq<Column>): (r: seq<int>)
    ensures |r| == |cols| && forall i | 0 <= i < |cols| :: r[i] == cols[i].0
  {
    if cols == [] then [] else Codes(cols[..|cols| - 1]) + [cols[|cols| - 1].0]
  }

  /** `index_d[p] = column` for every column in order: a repeated code keeps
      its last column. */
  function FillColumns(cols: seq<Column>): map<int, seq<real>> {
    if cols == [] then map[]
    else FillColumns(cols[..|cols| - 1])[cols[|cols| - 1].0 := cols[|cols| - 1].1]
  }

  /** The filled index holds exactly the stored codes. */
  lemma {:induction false} FillColumnsKeys(cols: seq<Column>)
    ensures forall p :: p in FillColumns(cols) <==> p in Codes(cols)
  {
    if cols != [] {
      FillColumnsKeys(cols[..|cols| - 1]);
    }
  }

  /** A code keeps the last column stored for it. */
  lemma {:induction false} FillColumnsLastWins(cols: seq<Column>, i: nat)
    requires i < |cols|
    requires forall j | i < j < |cols| :: cols[j].0 != cols[i].0
    ensures cols[i].0 in FillColumns(cols) && FillColumns(cols)[cols[i].0] == cols[i].1
  {
    var front := cols[..|cols| - 1];
    if i < |front| {
      assert front[i] == cols[i];
      FillColumnsLastWins(front, i);
    }
  }

  /** Adds the electromagnetic columns one by one, raising on a projectile
      that is already present (including one repeated among them). */
  function AddEmColumns(index: map<int, seq<real>>, em: seq<Column>): Result<map<int, seq<real>>> {
    if em == [] then Ok(index)
    else
      var m :- AddEmColumns(index, em[..|em| - 1]);
      var e := em[|em| - 1];
      if e.0 in m then Err(EmCrossSectionCollision) else Ok(m[e.0 := e.1])
  }

  /** Distinct codes. */
  predicate DistinctCodes(cols: seq<Column>) {
    forall i, j | 0 <= i < j < |cols| :: cols[i].0 != cols[j].0
  }

  /** Adding the electromagnetic columns succeeds exactly when their
      projectiles are new and distinct, and then only adds them. */
  lemma {:induction false} AddEmColumnsExact(index: map<int, seq<real>>, em: seq<Column>)
    ensures AddEmColumns(index, em).Ok? <==> DistinctCodes(em) && forall i | 0 <= i < |em| :: em[i].0 !in index
    ensures AddEmColumns(index, em).Err? ==> AddEmColumns(index, em).error == EmCrossSectionCollision
    ensures AddEmColumns(index, em).Ok? ==>
      var m := AddEmColumns(index, em).value;
      && (forall p :: p in m <==> p in index || p in Codes(em))
      && (forall p | p in index :: m[p] == index[p])
      && (forall i | 0 <= i < |em| :: m[em[i].0] == em[i].1)
  {
    AddEmColumnsOutcome(index, em);
    if AddEmColumns(index, em).Ok? {
      AddEmColumnsValues(index, em);
    }
  }

  /** New and distinct codes. */
  predicate Fresh(index: map<int, seq<real>>, em: seq<Column>) {
    DistinctCodes(em) && forall i | 0 <= i < |em| :: em[i].0 !in index
  }

  lemma FreshFront(index: map<int, seq<real>>, em: seq<Column>)
    requires em != []
    ensures var front, e := em[..|em| - 1], em[|em| - 1];
      Fresh(index, em) <==> Fresh(index, front) && e.0 !in index && e.0 !in Codes(front)
  {
    var front, e := em[..|em| - 1], em[|em| - 1];
    assert forall i | 0 <= i < |front| :: front[i] == em[i];
    if Fresh(index, front) && e.0 !in index && e.0 !in Codes(front) {
      forall i, j | 0 <= i < j < |em| ensures em[i].0 != em[j].0 {
        if j == |em| - 1 {
          assert Codes(front)[i] == em[i].0;
        }
      }
    }
    if Fresh(index, em) {
      forall i | 0 <= i < |front| ensures Codes(front)[i] != e.0 {
        assert em[i].0 != em[|em| - 1].0;
      }
    }
  }

  lemma {:induction false} AddEmColumnsOutcome(index: map<int, seq<real>>, em: seq<Column>)
    ensures AddEmColumns(index, em).Ok? <==> Fresh(index, em)
    ensures AddEmColumns(index, em).Err? ==> AddEmColumns(index, em).error == EmCrossSectionCollision
    ensures AddEmColumns(index, em).Ok? ==> forall p :: p in AddEmColumns(index, em).value <==> p in index || p in Codes(em)
  {
    if em != [] {
      var front := em[..|em| - 1];
      AddEmColumnsOutcome(index, front);
      FreshFront(index, em);
      assert Codes(em) == Codes(front) + [em[|em| - 1].0];
    }
  }

  lemma {:induction false} AddEmColumnsValues(index: map<int, seq<real>>, em: seq<Column>)
    requires AddEmColumns(index, em).Ok?
    ensures var m := AddEmColumns(index, em).value;
      && (forall p | p in index :: p in m && m[p] == index[p])
      && (forall i | 0 <= i < |em| :: em[i].0 in m && m[em[i].0] == em[i].1)
  {
    if em != [] {
      var front, e := em[..|em| - 1], em[|em| - 1];
      AddEmColumnsValues(index, front);
      AddEmColumnsOutcome(index, front);
      assert forall i | 0 <= i < |front| :: front[i] == em[i];
      var m0 := AddEmColumns(index, front).value;
      assert e.0 !in m0;
      assert AddEmColumns(index, em).value == m0[e.0 := e.1];
      forall i | 0 <= i < |em| - 1 ensures m0[e.0 := e.1][em[i].0] == em[i].1 {
        assert em[i].0 in m0;
      }
    }
  }

  /** A cross-section index: the projectiles in stored order and their
      vectors. */
  datatype CsIndex = CsIndex(parents: seq<int>, indexD: map<int, seq<real>>)

  /** `cs_db` (the model name is taken already normalised). */
  function CrossSectionIndex(db: Db, mname: string, cfg: Config): Result<CsIndex> {
    if mname !in db.crossSections then Err(UnknownSelection)
    else
      var cols := db.crossSections[mname];
      if !cfg.enableEm then Ok(CsIndex(Codes(cols), FillColumns(cols)))
      else if db.electromagnetic.None? then Err(UnknownSelection)
      else
        var em := db.electromagnetic.value.cs;
        var merged :- AddEmColumns(FillColumns(cols), em);
        Ok(CsIndex(Codes(cols) + Codes(em), merged))
  }

  /** Every listed projectile has a vector and every vector belongs to a
      listed projectile; a stored projectile keeps its last column and an
      electromagnetic projectile its own vector. */
  lemma CrossSectionIndexExact(db: Db, mname: string, cfg: Config)
    requires CrossSectionIndex(db, mname, cfg).Ok?
    ensures var x := CrossSectionIndex(db, mname, cfg).value;
      forall p :: p in x.indexD <==> p in x.parents
    ensures var x := CrossSectionIndex(db, mname, cfg).value;
      var cols := db.crossSections[mname];
      forall i | 0 <= i < |cols| && (forall j | i < j < |cols| :: cols[j].0 != cols[i].0) ::
        cols[i].0 in x.indexD && x.indexD[cols[i].0] == cols[i].1
    ensures var x := CrossSectionIndex(db, mname, cfg).value;
      cfg.enableEm ==> forall i | 0 <= i < |db.electromagnetic.value.cs| ::
        var c := db.electromagnetic.value.cs[i];
        c.0 in x.indexD && x.indexD[c.0] == c.1
  {
    var cols := db.crossSections[mname];
    FillColumnsKeys(cols);
    forall i | 0 <= i < |cols| && (forall j | i < j < |cols| :: cols[j].0 != cols[i].0) {
      FillColumnsLastWins(cols, i);
    }
    if cfg.enableEm {
      AddEmColumnsExact(FillColumns(cols), db.electromagnetic.value.cs);
    }
  }

  /** The body of `cs_db`: the column loop and the electromagnetic loop. */
  method CsDb(db: Db, mname: string, cfg: Config) returns (r: Result<CsIndex>)
    ensures r == CrossSectionIndex(db, mname, cfg)
  {
    if mname !in db.crossSections {
      return Err(UnknownSelection);
    }
    var cols := db.crossSections[mname];
    var indexD: map<int, seq<real>> := map[];
    var parents := Codes(cols);
    for i := 0 to |cols|
      invariant indexD == FillColumns(cols[..i])
    {
      assert cols[..i + 1][..i] == cols[..i];
      indexD := indexD[cols[i].0 := cols[i].1];
    }
    assert cols[..|cols|] == cols;
    if cfg.enableEm {
      if db.electromagnetic.None? {
        return Err(UnknownSelection);
      }
      var em := db.electromagnetic.value.cs;
      for i := 0 to |em|
        invariant AddEmColumns(FillColumns(cols), em[..i]) == Ok(indexD)
      {
        assert em[..i + 1][..i] == em[..i];
        if em[i].0 in indexD {
          EmCollisionStays(FillColumns(cols), em, i + 1);
          return Err(EmCrossSectionCollision);
        }
        indexD := indexD[em[i].0 := em[i].1];
      }
      assert em[..|em|] == em;
      parents := parents + Codes(em);
    }
    return Ok(CsIndex(parents, indexD));
  }

  /** A collision among the first n electromagnetic columns fails the whole
      merge. */
  lemma {:induction false} EmCollisionStays(index: map<int, seq<real>>, em: seq<Column>, n: nat)
    requires n <= |em| && AddEmColumns(index, em[..n]).Err?
    ensures AddEmColumns(index, em) == Err(EmCrossSectionCollision)
    decreases |em| - n
  {
    if n == |em| {
      assert em[..n] == em;
      AddEmColumnsExact(index, em);
    } else {
      assert em[..n + 1][..n] == em[..n];
      EmCollisionStays(index, em, n + 1);
    }
  }

  // Continuous losses

  /** The helicities a loss row is entered for, in the loop's order. */
  const Helicities: seq<int> := [0, 1, -1]

  /** `index_d[(code, hel)] = row` for the helicities `hs` in order. */
  function ForHelicities(m: map<Key, seq<real>>, code: int, row: seq<real>, hs: seq<int>): map<Key, seq<real>> {
    if hs == [] then m
    else ForHelicities(m, code, row, hs[..|hs| - 1])[Pair(code, hs[|hs| - 1]) := row]
  }

  /** One row entered for all three helicities. */
  function WithRow(m: map<Key, seq<real>>, code: int, row: seq<real>): (r: map<Key, seq<real>>)
    ensures r.Keys == m.Keys + {Pair(code, 0), Pair(code, 1), Pair(code, -1)}
    ensures forall k | k in r :: r[k] == if k.Pair? && k.pdg == code && k.tag in {0, 1, -1} then row else m[k]
  {
    m[Pair(code, 0) := row][Pair(code, 1) := row][Pair(code, -1) := row]
  }

  /** The helicity loop enters the row for all three helicities. */
  lemma ForHelicitiesAll(m: map<Key, seq<real>>, code: int, row: seq<real>)
    ensures ForHelicities(m, code, row, Helicities) == WithRow(m, code, row)
  {
    assert Helicities[..2] == [0, 1];
    assert [0, 1][..1] == [0];
    assert [0][..0] == [];
    assert ForHelicities(m, code, row, [0]) == m[Pair(code, 0) := row];
  }

  /** The loss rows of a medium in stored order, each entered for every
      helicity. */
  function FillLosses(rows: seq<Column>): map<Key, seq<real>> {
    if rows == [] then map[]
    else WithRow(FillLosses(rows[..|rows| - 1]), rows[|rows| - 1].0, rows[|rows| - 1].1)
  }

  /** Every stored code appears with the three helicities and nothing else. */
  lemma {:induction false} FillLossesKeys(rows: seq<Column>)
    ensures forall k :: k in FillLosses(rows) <==> k.Pair? && k.tag in {0, 1, -1} && k.pdg in Codes(rows)
  {
    if rows != [] {
      FillLossesKeys(rows[..|rows| - 1]);
    }
  }

  /** A code's keys carry the last row stored for it. */
  lemma {:induction false} FillLossesLastWins(rows: seq<Column>, i: nat, h: int)
    requires i < |rows| && h in {0, 1, -1}
    requires forall j | i < j < |rows| :: rows[j].0 != rows[i].0
    ensures Pair(rows[i].0, h) in FillLosses(rows) && FillLosses(rows)[Pair(rows[i].0, h)] == rows[i].1
  {
    var front := rows[..|rows| - 1];
    if i < |front| {
      assert front[i] == rows[i];
      FillLossesLastWins(front, i, h);
    }
  }

  /** The electromagnetic rows for 11 and -11 at the helicities `hs` in
      order, or the lookup failure of a missing row. */
  function EmLosses(m: map<Key, seq<real>>, dEdX: map<int, seq<real>>, hs: seq<int>): Result<map<Key, seq<real>>> {
    if hs == [] then Ok(m)
    else
      var m0 :- EmLosses(m, dEdX, hs[..|hs| - 1]);
      var h := hs[|hs| - 1];
      if 11 !in dEdX || -11 !in dEdX then Err(KeyError)
      else Ok(m0[Pair(11, h) := dEdX[11]][Pair(-11, h) := dEdX[-11]])
  }

  /** The electron and positron rows entered for all three helicities. */
  function WithEmRows(m: map<Key, seq<real>>, e: seq<real>, p: seq<real>): (r: map<Key, seq<real>>)
    ensures r.Keys == m.Keys + {Pair(11, 0), Pair(11, 1), Pair(11, -1), Pair(-11, 0), Pair(-11, 1), Pair(-11, -1)}
    ensures forall h | h in {0, 1, -1} :: r[Pair(11, h)] == e && r[Pair(-11, h)] == p
    ensures forall k | k in m && !(k.Pair? && (k.pdg == 11 || k.pdg == -11) && k.tag in {0, 1, -1}) :: r[k] == m[k]
  {
    m[Pair(11, 0) := e][Pair(-11, 0) := p][Pair(11, 1) := e][Pair(-11, 1) := p][Pair(11, -1) := e][Pair(-11, -1) := p]
  }

  /** The electromagnetic loop fails on a missing row and otherwise enters
      both rows at every helicity. */
  lemma EmLossesAll(m: map<Key, seq<real>>, dEdX: map<int, seq<real>>)
    ensures EmLosses(m, dEdX, Helicities) ==
      if 11 !in dEdX || -11 !in dEdX then Err(KeyError) else Ok(WithEmRows(m, dEdX[11], dEdX[-11]))
  {
    var h1, h2 := [0], [0, 1];
    assert Helicities[..|Helicities| - 1] == h2;
    assert h2[..|h2| - 1] == h1;
    assert h1[..|h1| - 1] == [];
    if 11 in dEdX && -11 in dEdX {
      var e, p := dEdX[11], dEdX[-11];
      var m1 := m[Pair(11, 0) := e][Pair(-11, 0) := p];
      var m2 := m1[Pair(11, 1) := e][Pair(-11, 1) := p];
      assert EmLosses(m, dEdX, h1) == Ok(m1);
      assert EmLosses(m, dEdX, h2) == Ok(m2);
    } else {
      assert EmLosses(m, dEdX, h1) == Err(KeyError);
      assert EmLosses(m, dEdX, h2) == Err(KeyError);
    }
  }

  /** A loss index: its keys in sorted order and the rows. */
  datatype LossIndex = LossIndex(parents: seq<Key>, indexD: map<Key, seq<real>>)

  /** `continuous_loss_db`. */
  function ContinuousLossIndex(db: Db, medium: string, cfg: Config): Result<LossIndex> {
    var full :- LossRows(db, medium, cfg);
    Ok(LossIndex(SortSet(full.Keys), full))
  }

  /** The rows of `continuous_loss_db` before the keys are sorted. */
  function LossRows(db: Db, medium: string, cfg: Config): Result<map<Key, seq<real>>> {
    if medium !in db.losses then Err(UnknownSelection)
    else
      var m := FillLosses(db.losses[medium]);
      if !cfg.enableEm then Ok(m)
      else if db.electromagnetic.None? then Err(UnknownSelection)
      else
        var dEdX := db.electromagnetic.value.dEdX;
        if 11 !in dEdX || -11 !in dEdX then Err(KeyError) else Ok(WithEmRows(m, dEdX[11], dEdX[-11]))
  }

  /** The loss index lists its keys in order; every stored code is there at
      the three helicities; with the electromagnetic rows the electron and
      positron keys carry those rows. */
  lemma ContinuousLossIndexExact(db: Db, medium: string, cfg: Config)
    requires ContinuousLossIndex(db, medium, cfg).Ok?
    ensures var x := ContinuousLossIndex(db, medium, cfg).value;
      && Ascending(x.parents) && Elems(x.parents) == x.indexD.Keys
      && (forall c, h | c in Codes(db.losses[medium]) && h in {0, 1, -1} :: Pair(c, h) in x.indexD)
      && (cfg.enableEm ==> forall h | h in {0, 1, -1} ::
            && Pair(11, h) in x.indexD && x.indexD[Pair(11, h)] == db.electromagnetic.value.dEdX[11]
            && Pair(-11, h) in x.indexD && x.indexD[Pair(-11, h)] == db.electromagnetic.value.dEdX[-11])
  {
    LossRowsShape(db, medium, cfg);
  }

  lemma LossRowsShape(db: Db, medium: string, cfg: Config)
    requires LossRows(db, medium, cfg).Ok?
    ensures var full := LossRows(db, medium, cfg).value;
      && (forall c, h | c in Codes(db.losses[medium]) && h in {0, 1, -1} :: Pair(c, h) in full)
      && (cfg.enableEm ==> forall h | h in {0, 1, -1} ::
            && Pair(11, h) in full && full[Pair(11, h)] == db.electromagnetic.value.dEdX[11]
            && Pair(-11, h) in full && full[Pair(-11, h)] == db.electromagnetic.value.dEdX[-11])
  {
    var m := FillLosses(db.losses[medium]);
    FillLossesKeys(db.losses[medium]);
    assert m.Keys <= LossRows(db, medium, cfg).value.Keys;
  }

  /** The helicity loop for one stored row. */
  method EnterRow(m: map<Key, seq<real>>, code: int, row: seq<real>) returns (r: map<Key, seq<real>>)
    ensures r == WithRow(m, code, row)
  {
    r := m;
    for j := 0 to |Helicities|
      invariant r == ForHelicities(m, code, row, Helicities[..j])
    {
      assert Helicities[..j + 1][..j] == Helicities[..j];
      r := r[Pair(code, Helicities[j]) := row];
    }
    assert Helicities[..|Helicities|] == Helicities;
    ForHelicitiesAll(m, code, row);
  }

  /** The electromagnetic helicity loop, which raises on a missing row. */
  method EnterEmRows(m: map<Key, seq<real>>, dEdX: map<int, seq<real>>) returns (r: Result<map<Key, seq<real>>>)
    ensures r == if 11 !in dEdX || -11 !in dEdX then Err(KeyError) else Ok(WithEmRows(m, dEdX[11], dEdX[-11]))
  {
    EmLossesAll(m, dEdX);
    var indexD := m;
    for j := 0 to |Helicities|
      invariant EmLosses(m, dEdX, Helicities[..j]) == Ok(indexD)
    {
      assert Helicities[..j + 1][..j] == Helicities[..j];
      if 11 !in dEdX || -11 !in dEdX {
        return Err(KeyError);
      }
      indexD := indexD[Pair(11, Helicities[j]) := dEdX[11]];
      indexD := indexD[Pair(-11, Helicities[j]) := dEdX[-11]];
    }
    assert Helicities[..|Helicities|] == Helicities;
    return Ok(indexD);
  }

  /** The body of `continuous_loss_db`: a loop over the stored codes, then
      the electromagnetic rows. */
  method ContinuousLossDb(db: Db, medium: string, cfg: Config) returns (r: Result<LossIndex>)
    ensures r == ContinuousLossIndex(db, medium, cfg)
  {
    if medium !in db.losses {
      return Err(UnknownSelection);
    }
    var rows := db.losses[medium];
    var indexD: map<Key, seq<real>> := map[];
    for i := 0 to |rows|
      invariant indexD == FillLosses(rows[..i])
    {
      assert rows[..i + 1][..i] == rows[..i];
      indexD := EnterRow(indexD, rows[i].0, rows[i].1);
    }
    assert rows[..|rows|] == rows;
    if cfg.enableEm {
      if db.electromagnetic.None? {
        return Err(UnknownSelection);
      }
      var full := EnterEmRows(indexD, db.electromagnetic.value.dEdX);
      if full.Err? {
        return Err(full.error);
      }
      indexD := full.value;
    }
    return Ok(LossIndex(SortSet(indexD.Keys), indexD));
  }
}
