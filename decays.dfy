/** The decay tables (`Decays`): loading the decay index of a data set,
    selecting parents together with their decay products, the disable list,
    and the lookups of children and matrices. */
module DecayTables {
  import opened Wrappers
  import opened Pdg
  import opened Matrices
  import opened Records
  import opened Tables
  import opened Settings
  import opened Store

  /** The children of the given parents, every one of which must have a
      relation. */
  function Offspring(relations: map<Key, seq<Key>>, ps: seq<Key>): set<Key>
    requires forall p | p in ps :: p in relations
  {
    set p, c | p in ps && c in relations[p] :: c
  }

  /** `p in parent_list` */
  function Listed(pl: seq<Key>): Key -> bool {
    k => k in pl
  }

  /** `p[0] not in disable_decays` */
  function Enabled(disabled: seq<int>): int -> bool {
    c => c !in disabled
  }

  /** `[p for p in parents if p in parent_list]` when a list is given. */
  function Selected(x: Index, parentList: seq<Key>): (r: seq<Key>)
    ensures forall k :: k in r <==> k in x.parents && (parentList != [] ==> k in parentList)
  {
    if parentList != [] then Where(x.parents, Listed(parentList)) else x.parents
  }

  /** The selected parents followed by their decay products in ascending
      order. */
  function Grown(x: Index, parentList: seq<Key>): (r: seq<Key>)
    requires parentList != [] ==> forall p | p in Selected(x, parentList) :: p in x.relations
    ensures forall k :: k in r <==>
      && (parentList == [] ==> k in x.parents)
      && (parentList != [] ==> (k in x.parents && k in parentList) ||
                               exists p | p in x.parents && p in parentList :: p in x.relations && k in x.relations[p])
  {
    var selected := Selected(x, parentList);
    if parentList != [] then selected + SortSet(Offspring(x.relations, selected)) else selected
  }

  /** The parent selection of `load`: the listed parents followed by all
      their decay products in ascending order (a parent without a relation
      raises a KeyError), then the disable list (a bare integer raises).
      A failure leaves the parents of the last completed statement. */
  function DecayParents(x: Index, parentList: seq<Key>, cfg: Config): (r: (seq<Key>, Outcome))
    ensures r.1.Pass? ==> forall k :: k in r.0 <==>
      && (parentList == [] ==> k in x.parents)
      && (parentList != [] ==> (k in x.parents && k in parentList) ||
                               exists p | p in x.parents && p in parentList :: p in x.relations && k in x.relations[p])
      && (cfg.disableDecays != [] ==> k.Pair? && k.pdg !in cfg.disableDecays)
  {
    var selected := Selected(x, parentList);
    if parentList != [] && !(forall p | p in selected :: p in x.relations) then (selected, Fail(KeyError))
    else
      var grown := Grown(x, parentList);
      if cfg.disableDecays == [] then (grown, Pass)
      else
        match WhereCode(grown, Enabled(cfg.disableDecays))
        case Err(e) => (grown, Fail(e))
        case Ok(kept) => (kept, Pass)
  }

  /** The graph `load` leaves behind for a decay index, and how it ended. */
  function DecayLoaded(x: Index, parentList: seq<Key>, cfg: Config): (Graph, Outcome) {
    var f := DecayParents(x, parentList, cfg);
    if f.1.Fail? || (parentList == [] && cfg.disableDecays == []) then
      (Graph(f.0, x.particles, x.relations, x.indexD, x.description), f.1)
    else
      var kept := Restrict(x.relations, f.0);
      (Graph(f.0, SortSet(Reach(kept)), kept, x.indexD, x.description), Pass)
  }

  /** The selection statements of `load`, one after the other. */
  method SelectParents(x: Index, parentList: seq<Key>, cfg: Config) returns (parents: seq<Key>, r: Outcome)
    ensures (parents, r) == DecayParents(x, parentList, cfg)
  {
    parents := x.parents;
    if parentList != [] {
      parents := Where(parents, Listed(parentList));
      assert parents == Selected(x, parentList);
      if !(forall p | p in parents :: p in x.relations) {
        return parents, Fail(KeyError);
      }
      parents := parents + SortSet(Offspring(x.relations, parents));
    }
    assert parents == Grown(x, parentList);
    if cfg.disableDecays != [] {
      var kept := WhereCode(parents, Enabled(cfg.disableDecays));
      if kept.Err? {
        return parents, Fail(kept.error);
      }
      parents := kept.value;
    }
    r := Pass;
  }

  class Decays {
    /** The store the tables are read from. */
    const db: Db
    /** The data set read when none is named. */
    const defaultDset: string
    var parents: seq<Key>
    var particles: seq<Key>
    var relations: map<Key, seq<Key>>
    var indexD: map<Channel, Mat>
    var description: Option<string>
    /** `relations` is the `defaultdict(lambda: [])` that the helicity
        dependent decay index builds, rather than a plain dictionary. */
    var defaulting: bool

    /** The loaded tables. */
    function Current(): Graph
      reads this
    {
      Graph(parents, particles, relations, indexD, description)
    }

    constructor(db: Db, defaultDset: string)
      ensures this.db == db && this.defaultDset == defaultDset
      ensures Current() == Graph([], [], map[], map[], None) && !defaulting
    {
      this.db := db;
      this.defaultDset := defaultDset;
      parents, particles, relations, indexD, description := [], [], map[], map[], None;
      defaulting := false;
    }

    /** Replace the loaded tables. */
    method Assign(g: Graph)
      modifies this
      ensures Current() == g && defaulting == old(defaulting)
    {
      parents, particles, relations, indexD, description := g.parents, g.particles, g.relations, g.indexD, g.description;
    }

    /** `load`: read the decay index of the named (or the default) data set,
        select the parents and regenerate relations and particles. An empty
        parent list selects nothing, as in the source. */
    method Load(parentList: seq<Key>, decayDset: Option<string>, cfg: Config) returns (r: Outcome)
      modifies this
      ensures var dset := if decayDset.Some? then decayDset.value else defaultDset;
        && (DecayIndex(db, dset, cfg).Err? ==>
              r == Fail(DecayIndex(db, dset, cfg).error) && Current() == old(Current()) && defaulting == old(defaulting))
        && (DecayIndex(db, dset, cfg).Ok? ==>
              (Current(), r) == DecayLoaded(DecayIndex(db, dset, cfg).value, parentList, cfg) && defaulting == cfg.muonHelicityDependence)
    {
      var dset := if decayDset.Some? then decayDset.value else defaultDset;
      var index := DecayDb(db, dset, cfg);
      if index.Err? {
        return Fail(index.error);
      }
      defaulting := cfg.muonHelicityDependence;
      var x := index.value;
      var selected, outcome := SelectParents(x, parentList, cfg);
      if outcome.Fail? || (parentList == [] && cfg.disableDecays == []) {
        Assign(Graph(selected, x.particles, x.relations, x.indexD, x.description));
        return outcome;
      }
      var kept, particles := Regenerate(x.relations, selected);
      Assign(Graph(selected, particles, kept, x.indexD, x.description));
      return Pass;
    }

    /** `children` */
    function Children(parent: Key): (r: Result<seq<Key>>)
      reads this
      ensures r.Ok? <==> parent in relations
      ensures r.Ok? ==> r.value == relations[parent]
      ensures r.Err? ==> r.error == UnknownParent
    {
      if parent !in relations then Err(UnknownParent) else Ok(relations[parent])
    }

    /** `get_matrix`: on a default dictionary the lookup of an unknown
        parent enters an empty list for it before the membership test
        fails. */
    method GetMatrix(parent: Key, child: Key) returns (r: Result<Mat>)
      modifies this
      ensures (Current(), r) == DecayLookup(old(Current()), defaulting, parent, child)
      ensures defaulting == old(defaulting)
    {
      if parent !in relations {
        if !defaulting {
          return Err(KeyError);
        }
        relations := relations[parent := []];
        return Err(EmptyMatrix);
      }
      if child !in relations[parent] {
        return Err(EmptyMatrix);
      }
      if (parent, child) !in indexD {
        return Err(KeyError);
      }
      return Ok(indexD[(parent, child)]);
    }
  }

  /** The checked lookup of `get_matrix` on tables whose relations are a
      default dictionary (`defaulting`) or a plain one: the tables it
      leaves and the matrix or error. */
  function DecayLookup(g: Graph, defaulting: bool, parent: Key, child: Key): (Graph, Result<Mat>) {
    if parent !in g.relations then
      if defaulting then (g.(relations := g.relations[parent := []]), Err(EmptyMatrix)) else (g, Err(KeyError))
    else if child !in g.relations[parent] then (g, Err(EmptyMatrix))
    else if (parent, child) !in g.indexD then (g, Err(KeyError))
    else (g, Ok(g.indexD[(parent, child)]))
  }

  /** The decay index lists each parent with a relation exactly once in
      order, and has a matrix for every listed child. */
  lemma DecayIndexShape(db: Db, dset: string, cfg: Config)
    requires DecayIndex(db, dset, cfg).Ok?
    ensures var x := DecayIndex(db, dset, cfg).value;
      && Ascending(x.parents) && Elems(x.parents) == x.relations.Keys
      && Consistent(x.relations, x.indexD)
  {
    var t := db.decays[dset];
    var dec := DbDictionary(t.group, cfg.disabledParticles, map[], t.dense);
    assert dec.Ok?;
    DictionaryShape(t.group, cfg.disabledParticles, t.dense);
    if cfg.muonHelicityDependence {
      var c := db.decays["custom_decays"];
      var custom := DbDictionary(c.group, cfg.disabledParticles, map[], c.dense);
      var m4 := PopMuon(dec.value.indexD + custom.value.indexD).value;
      RebuiltParents(m4, dec.value.description);
      RebuiltChannels(m4, dec.value.description);
    }
  }

  lemma DictionaryShape(g: RecordGroup, exclude: seq<int>, dense: Dense)
    requires DbDictionary(g, exclude, map[], dense).Ok?
    ensures var x := DbDictionary(g, exclude, map[], dense).value;
      && Ascending(x.parents) && Elems(x.parents) == x.relations.Keys
      && Consistent(x.relations, x.indexD)
  {
    var s := Fold(g, exclude, map[], dense, |g.records|).value;
    FinishShape(s, g.description);
    DictionaryChannelsMatchRelations(g, exclude, dense);
  }

  /** Selecting and regenerating only drops relations, so a consistent index
      stays consistent. */
  lemma DecayLoadedConsistent(x: Index, parentList: seq<Key>, cfg: Config)
    requires Consistent(x.relations, x.indexD)
    ensures var g := DecayLoaded(x, parentList, cfg).0;
      Consistent(g.relations, g.indexD)
  {
  }

  /** With a parent list, loading keeps the listed parents, every product of
      their decays, and the relations of exactly those; a product that
      decays further keeps its own relation, so the chain is followed one
      level down. */
  lemma DecayLoadFollowsProducts(x: Index, parentList: seq<Key>, cfg: Config)
    requires parentList != [] && cfg.disableDecays == []
    requires DecayLoaded(x, parentList, cfg).1 == Pass
    ensures var g := DecayLoaded(x, parentList, cfg).0;
      && (forall p | p in g.parents :: p in x.relations ==> p in g.relations)
      && (forall p, c | p in x.parents && p in parentList && p in x.relations && c in x.relations[p] && c in x.relations ::
            c in g.relations && g.relations[c] == x.relations[c])
      && Ascending(g.particles) && forall k :: k in g.particles <==> k in Reach(g.relations)
  {
    var g := DecayLoaded(x, parentList, cfg).0;
    forall p, c | p in x.parents && p in parentList && p in x.relations && c in x.relations[p] && c in x.relations
      ensures c in g.relations && g.relations[c] == x.relations[c]
    {
      assert c in g.parents;
    }
  }

  /** An index whose parents are its (code, tag) relation keys always loads:
      every selected parent has a relation and no filter meets a bare
      integer. */
  lemma StoreDecaysLoadCleanly(x: Index, parentList: seq<Key>, cfg: Config)
    requires Elems(x.parents) == x.relations.Keys && PairKeyed(x)
    ensures DecayLoaded(x, parentList, cfg).1 == Pass
  {
    var selected := if parentList != [] then Where(x.parents, Listed(parentList)) else x.parents;
    var grown := if parentList != [] then selected + SortSet(Offspring(x.relations, selected)) else selected;
    assert forall k | k in grown :: k.Pair?;
  }

  /** On consistent tables the matrix lookup raises a KeyError exactly for
      an unknown parent of a plain dictionary, the empty-matrix error
      exactly for an unknown parent of a default dictionary or an unlisted
      child, and otherwise yields the stored matrix. Only the default
      dictionary changes: the unknown parent is entered with no children,
      so the tables stay consistent and a later `children` of that parent
      returns the empty list instead of raising. */
  lemma DecayLookupExact(g: Graph, defaulting: bool, parent: Key, child: Key)
    requires Consistent(g.relations, g.indexD)
    ensures var (h, r) := DecayLookup(g, defaulting, parent, child);
      && (r == Err(KeyError) <==> parent !in g.relations && !defaulting)
      && (r == Err(EmptyMatrix) <==> (parent !in g.relations && defaulting) || (parent in g.relations && child !in g.relations[parent]))
      && (r.Ok? ==> r.value == g.indexD[(parent, child)])
      && h == (if parent !in g.relations && defaulting then g.(relations := g.relations[parent := []]) else g)
      && Consistent(h.relations, h.indexD)
      && (parent !in g.relations && defaulting ==> parent in h.relations && h.relations[parent] == [])
  {
  }
}
