/** The interaction tables of a hadronic model (`Interactions`): loading and
    filtering the channel index, the production-modification registry with
    its isospin companions, and the matrix lookup with the leading-meson
    veto. */
module InteractionTables {
  import opened Wrappers
  import opened Pdg
  import opened Matrices
  import opened Records
  import opened Tables
  import opened Settings
  import opened Store

  // Loading

  /** The codes the `disable_interactions_of_unstable` filter drops: the
      nucleons, despite the option's name. */
  const Nucleons: seq<int> := [2212, 2112, -2212, -2112]

  predicate NotNucleon(code: int) {
    code !in Nucleons
  }

  /** `p in parent_list` */
  function InList(pl: seq<Key>): Key -> bool {
    k => k in pl
  }

  /** `not is_charm_pdgid(p[0])`, the charm test taken as a parameter. */
  function NotCharm(isCharm: int -> bool): int -> bool {
    c => !isCharm(c)
  }

  /** The parent filters of `load` in order: the caller's list, the charm
      filter, the nucleon filter and the allowed projectiles. A filter that
      indexes a bare integer raises; the parents then keep the list the last
      successful filter assigned. */
  function FilterParents(ps: seq<Key>, parentList: Option<seq<Key>>, cfg: Config, isCharm: int -> bool): (r: (seq<Key>, Outcome))
    ensures r.1.Pass? ==> forall k :: k in r.0 <==>
      && k in ps
      && (parentList.Some? ==> k in parentList.value)
      && (cfg.disableCharmPprod ==> k.Pair? && !isCharm(k.pdg))
      && (cfg.disableInteractionsOfUnstable ==> k.Pair? && k.pdg !in Nucleons)
      && (cfg.allowedProjectiles != [] ==> k in cfg.allowedProjectiles)
    ensures r.1.Fail? ==> r.1.error == TypeError
    ensures (forall k | k in ps :: k.Pair?) ==> r.1.Pass?
  {
    var p1 := if parentList.Some? then Where(ps, InList(parentList.value)) else ps;
    var r2 := if cfg.disableCharmPprod then WhereCode(p1, NotCharm(isCharm)) else Ok(p1);
    if r2.Err? then (p1, Fail(r2.error))
    else
      var p2 := r2.value;
      var r3 := if cfg.disableInteractionsOfUnstable then WhereCode(p2, NotNucleon) else Ok(p2);
      if r3.Err? then (p2, Fail(r3.error))
      else
        var p3 := r3.value;
        (if cfg.allowedProjectiles != [] then Where(p3, InList(cfg.allowedProjectiles)) else p3, Pass)
  }

  /** Some filter is active, so relations and particles are regenerated. */
  predicate Regenerates(parentList: Option<seq<Key>>, cfg: Config) {
    parentList.Some? || cfg.disableCharmPprod || cfg.disableInteractionsOfUnstable || cfg.allowedProjectiles != []
  }

  /** The direct-lepton strip is active: by option, or always for DPMJET. */
  predicate StripsLeptons(mname: string, cfg: Config) {
    cfg.disableDirectLeptons || HasSubstring(mname, "DPMJET")
  }

  /** The regeneration and the lepton strip of `load` on the filtered
      graph. */
  function Settled(g: Graph, regenerate: bool, strip: bool): (Graph, Outcome) {
    var h :=
      if regenerate then
        var kept := Restrict(g.relations, g.parents);
        g.(particles := SortSet(Reach(kept)), relations := kept)
      else g;
    if !strip then (h, Pass)
    else
      match StripLeptons(h.relations)
      case Err(e) => (h, Fail(e))
      case Ok(rel) => (h.(relations := rel), Pass)
  }

  /** The graph `load` leaves behind for an index read from the store, and
      how it ended. */
  function Loaded(x: Index, mname: string, parentList: Option<seq<Key>>, cfg: Config, isCharm: int -> bool): (Graph, Outcome) {
    var f := FilterParents(x.parents, parentList, cfg, isCharm);
    var g := Graph(f.0, x.particles, x.relations, x.indexD, x.description);
    if f.1.Fail? then (g, f.1)
    else Settled(g, Regenerates(parentList, cfg), StripsLeptons(mname, cfg))
  }

  method Settle(g: Graph, regenerate: bool, strip: bool) returns (h: Graph, r: Outcome)
    ensures (h, r) == Settled(g, regenerate, strip)
  {
    h := g;
    if regenerate {
      var relations, particles := Regenerate(g.relations, g.parents);
      h := h.(particles := particles, relations := relations);
    }
    if strip {
      var stripped := StripDirectLeptons(h.relations);
      if stripped.Err? {
        return h, Fail(stripped.error);
      }
      h := h.(relations := stripped.value);
    }
    r := Pass;
  }

  /** The filter statements of `load`, one after the other. */
  method FilterSteps(ps: seq<Key>, parentList: Option<seq<Key>>, cfg: Config, isCharm: int -> bool) returns (kept: seq<Key>, r: Outcome)
    ensures (kept, r) == FilterParents(ps, parentList, cfg, isCharm)
  {
    kept := ps;
    if parentList.Some? {
      kept := Where(kept, InList(parentList.value));
    }
    if cfg.disableCharmPprod {
      var k := WhereCode(kept, NotCharm(isCharm));
      if k.Err? {
        return kept, Fail(k.error);
      }
      kept := k.value;
    }
    if cfg.disableInteractionsOfUnstable {
      var k := WhereCode(kept, NotNucleon);
      if k.Err? {
        return kept, Fail(k.error);
      }
      kept := k.value;
    }
    if cfg.allowedProjectiles != [] {
      kept := Where(kept, InList(cfg.allowedProjectiles));
    }
    r := Pass;
  }

  // The modification registry

  /** The arguments of a modification function: a mode and a value
      (`args[0]` and `args[1]`). */
  datatype Args = Args(mode: string, value: real)

  /** A modification function: its `__name__` and the matrix it yields for
      some arguments on this energy grid. */
  datatype XFunc = XFunc(name: string, apply: Args -> Mat)

  /** A registry entry is keyed by a function name and its arguments. */
  type ModKey = (string, Args)

  /** The entries of one channel in insertion order. */
  type Entries = seq<(ModKey, Mat)>

  /** `mod_pprod`: per channel, its modification entries. */
  type Registry = map<Channel, Entries>

  /** `k in d` */
  predicate HasKey(es: Entries, k: ModKey) {
    es != [] && (es[0].0 == k || HasKey(es[1..], k))
  }

  /** `d[k]` on the entries, when k is there. */
  function Find(es: Entries, k: ModKey): Option<Mat> {
    if es == [] then None
    else if es[0].0 == k then Some(es[0].1)
    else Find(es[1..], k)
  }

  /** `d[k] = m`: an existing key keeps its place, a new key goes last. */
  function Put(es: Entries, k: ModKey, m: Mat): (r: Entries)
    ensures forall k' :: HasKey(r, k') <==> HasKey(es, k') || k' == k
    ensures forall n, a :: SameMode(es, n, a) ==> SameMode(r, n, a)
    ensures Find(r, k) == Some(m)
    ensures forall k' | k' != k :: Find(r, k') == Find(es, k')
    ensures es != [] ==> r[0] == if es[0].0 == k then (k, m) else es[0]
  {
    if es == [] then [(k, m)]
    else if es[0].0 == k then [(k, m)] + es[1..]
    else [es[0]] + Put(es[1..], k, m)
  }

  /** The entries of a channel; a missing channel reads as empty, as on the
      default dictionary. */
  function EntriesAt(reg: Registry, ch: Channel): Entries {
    if ch in reg then reg[ch] else []
  }

  /** `mpli[ch][k] = m` */
  function Register(reg: Registry, ch: Channel, k: ModKey, m: Mat): (r: Registry)
    ensures r.Keys == reg.Keys + {ch}
    ensures forall c | c in r && c != ch :: r[c] == reg[c]
  {
    reg[ch := Put(EntriesAt(reg, ch), k, m)]
  }

  /** `mpli[t][k] = m` for each channel t in order. */
  function RegisterAll(reg: Registry, chs: seq<Channel>, k: ModKey, m: Mat): Registry {
    if chs == [] then reg
    else Register(RegisterAll(reg, chs[..|chs| - 1], k, m), chs[|chs| - 1], k, m)
  }

  /** `_gen_mod_matrix`: the function's matrix for these arguments with the
      strict lower triangle of the grid block set to zero, since a secondary
      cannot carry more energy than its primary. */
  function GenModMatrix(xf: XFunc, args: Args, d: nat): (r: Mat)
    ensures |r| == |xf.apply(args)|
    ensures forall i | 0 <= i < |r| :: |r[i]| == |xf.apply(args)[i]|
    ensures forall i, j | 0 <= j < i < d && i < |r| && j < |r[i]| :: r[i][j] == 0.0
    ensures forall i, j | 0 <= i < |r| && 0 <= j < |r[i]| && !(j < i < d) :: r[i][j] == xf.apply(args)[i][j]
  {
    ZeroStrictLower(xf.apply(args), d)
  }

  const Proton := Code(2212)
  const Neutron := Code(2112)

  /** The channels of the unflavoured companions (eta, omega, phi). */
  const Unflavored: seq<Channel> := [
    (Proton, Code(221)), (Proton, Code(223)), (Proton, Code(333)),
    (Neutron, Code(221)), (Neutron, Code(223)), (Neutron, Code(333))]

  /** The channels of the neutral-kaon companions. */
  const NeutralKaons: seq<Channel> := [
    (Proton, Code(310)), (Proton, Code(130)), (Neutron, Code(310)), (Neutron, Code(130))]

  /** The channels of the charmed-meson companions of a D+ or D-. */
  function CharmCompanions(sec: int): seq<Channel> {
    var t := Sign(sec);
    [(Proton, Code(t * 421)), (Proton, Code(t * 431)), (Neutron, Code(sec)),
     (Neutron, Code(t * 421)), (Neutron, Code(t * 431))]
  }

  /** Some registered function name equals the mode of the new arguments;
      the averaging loop then adds an argument tuple to a number. */
  predicate NameIsMode(es: Entries, mode: string) {
    es != [] && (es[0].0.0 == mode || NameIsMode(es[1..], mode))
  }

  /** A function of this name is registered with the same mode. */
  predicate SameMode(es: Entries, name: string, args: Args) {
    es != [] && ((es[0].0.0 == name && es[0].0.1.mode == args.mode) || SameMode(es[1..], name, args))
  }

  /** What a registration returns and the registry it leaves behind (also
      when it raises part way). */
  datatype Registration = Registration(result: Result<bool>, registry: Registry)

  /** A charged pion: the neutron gets the opposite pion, and when an
      unflavoured meson is a parent, the unflavoured channels get the
      averaged factor. If the opposite pion of the proton is registered too,
      the averaging raises: it adds an argument tuple to a number, or finds
      no argument at all. */
  function PionCompanions(reg: Registry, parents: seq<Key>, s: int, xf: XFunc, args: Args, kmat: Mat, d: nat): Registration {
    var reg2 := Register(reg, (Neutron, Code(-s)), ("isospin", args), kmat);
    if !(Code(221) in parents || Code(223) in parents || Code(333) in parents) then Registration(Ok(true), reg2)
    else if (Proton, Code(-s)) in reg2 then Registration(Err(TypeError), reg2)
    else
      var ua := Args(args.mode, 0.5 * args.value);
      Registration(Ok(true), RegisterAll(reg2, Unflavored, ("isospin", ua), GenModMatrix(xf, ua, d)))
  }

  /** A charged kaon: the neutron gets the same kaon and the neutral kaons
      get the factor at half the value; the averaging raises when a
      registered function is named like the mode. */
  function KaonCompanions(reg: Registry, s: int, xf: XFunc, args: Args, kmat: Mat, d: nat): Registration {
    var reg2 := Register(reg, (Neutron, Code(s)), ("isospin", args), kmat);
    if (Proton, Code(-s)) in reg2 && NameIsMode(reg2[(Proton, Code(-s))], args.mode) then
      Registration(Err(TypeError), reg2)
    else
      var ka := Args(args.mode, 0.5 * args.value);
      Registration(Ok(true), RegisterAll(reg2, NeutralKaons, ("isospin", ka), GenModMatrix(xf, ka, d)))
  }

  /** The isospin companions of a new entry. The primary and its partner are
      always the proton and the neutron, whatever primary was registered. */
  function Companions(reg: Registry, parents: seq<Key>, sec: Key, xf: XFunc, args: Args, kmat: Mat, d: nat): Registration {
    if sec.Pair? then Registration(Err(TypeError), reg)
    else
      var s := sec.code;
      var iso := ("isospin", args);
      if Abs(s) == 211 then PionCompanions(reg, parents, s, xf, args, kmat, d)
      else if Abs(s) == 321 then KaonCompanions(reg, s, xf, args, kmat, d)
      else if Abs(s) == 411 then Registration(Ok(true), RegisterAll(reg, CharmCompanions(s), iso, kmat))
      else if Abs(s) == 2212 then Registration(Ok(true), Register(reg, (Neutron, Neutron), iso, kmat))
      else if Abs(s) == 2112 then Registration(Ok(true), Register(reg, (Neutron, Proton), iso, kmat))
      else Registration(Err(NoIsospinRelation), reg)
  }

  /** `_set_mod_pprod`. */
  function SetMod(reg: Registry, parents: seq<Key>, prim: Key, sec: Key, xf: XFunc, args: Args, useIso: bool, d: nat): Registration {
    var es := EntriesAt(reg, (prim, sec));
    if useIso && prim != Proton && prim != Neutron then Registration(Err(UnsupportedPrimary), reg)
    else if HasKey(es, (xf.name, args)) || SameMode(es, xf.name, args) then Registration(Ok(false), reg)
    else
      var kmat := GenModMatrix(xf, args, d);
      var reg1 := Register(reg, (prim, sec), (xf.name, args), kmat);
      if !useIso then Registration(Ok(true), reg1)
      else Companions(reg1, parents, sec, xf, args, kmat, d)
  }

  /** `_set_mod_pprod` as written. The log call after the entry is stored
      passes a `dtype` keyword to `np.count_nonzero`, which accepts none,
      so every registration that gets that far raises TypeError there and
      the isospin companions are never added. `SetMod` is the evidently
      intended behaviour, which the rest of the model uses. */
  function SetModAsWritten(reg: Registry, prim: Key, sec: Key, xf: XFunc, args: Args, useIso: bool, d: nat): Registration {
    var es := EntriesAt(reg, (prim, sec));
    if useIso && prim != Proton && prim != Neutron then Registration(Err(UnsupportedPrimary), reg)
    else if HasKey(es, (xf.name, args)) || SameMode(es, xf.name, args) then Registration(Ok(false), reg)
    else Registration(Err(TypeError), Register(reg, (prim, sec), (xf.name, args), GenModMatrix(xf, args, d)))
  }

  // The matrix lookup

  /** The leading-meson veto: for a meson child whose antiparticle channel
      exists, the antiparticle's matrix is returned when the child carries
      more weight in the window of columns 20 to 49 (`m[:, ie - 30:ie]` with
      `ie = 50`); `abs` of a tuple child raises. */
  function LeadingVeto(indexD: map<Channel, Mat>, parent: Key, child: Key, m: Mat, veto: bool): Result<Mat> {
    if !veto then Ok(m)
    else if child.Pair? then Err(TypeError)
    else if !(Abs(child.code) < 2000) || (parent, Code(-child.code)) !in indexD then Ok(m)
    else
      var anti := indexD[(parent, Code(-child.code))];
      if WindowSum(m, 20, 50) - WindowSum(anti, 20, 50) > 0.0 then Ok(anti) else Ok(m)
  }

  /** `get_matrix`: the checked lookup, the veto, and the first registered
      modification of the channel, if there is one. */
  function MatrixOf(g: Graph, reg: Registry, parent: Key, child: Key, veto: bool): Result<Mat> {
    if parent !in g.relations then Err(KeyError)
    else if child !in g.relations[parent] then Err(EmptyMatrix)
    else if (parent, child) !in g.indexD then Err(KeyError)
    else
      var base :- LeadingVeto(g.indexD, parent, child, g.indexD[(parent, child)], veto);
      if (parent, child) in reg && reg[(parent, child)] != [] then Ok(Hadamard(base, reg[(parent, child)][0].1))
      else Ok(base)
  }

  class Interactions {
    /** The store the tables are read from. */
    const db: Db
    /** The dimension of the energy grid. */
    const dim: nat
    var parents: seq<Key>
    var particles: seq<Key>
    var relations: map<Key, seq<Key>>
    var indexD: map<Channel, Mat>
    var description: Option<string>
    var iam: string
    var modPprod: Registry

    /** The loaded tables. */
    function Current(): Graph
      reads this
    {
      Graph(parents, particles, relations, indexD, description)
    }

    constructor(db: Db, dim: nat)
      ensures this.db == db && this.dim == dim
      ensures Current() == Graph([], [], map[], map[], None) && iam == "" && modPprod == map[]
    {
      this.db := db;
      this.dim := dim;
      parents, particles, relations, indexD, description := [], [], map[], map[], None;
      iam := "";
      modPprod := map[];
    }

    /** `load`: read the index of the model, filter the parents, regenerate
        relations and particles, and strip direct leptons. */
    method Load(mname: string, parentList: Option<seq<Key>>, cfg: Config, isCharm: int -> bool) returns (r: Outcome)
      modifies this
      ensures iam == mname && modPprod == old(modPprod)
      ensures InteractionIndex(db, mname, cfg).Err? ==>
        r == Fail(InteractionIndex(db, mname, cfg).error) && Current() == old(Current())
      ensures InteractionIndex(db, mname, cfg).Ok? ==>
        (Current(), r) == Loaded(InteractionIndex(db, mname, cfg).value, mname, parentList, cfg, isCharm)
    {
      iam := mname;
      var index := InteractionDb(db, mname, cfg);
      if index.Err? {
        return Fail(index.error);
      }
      var x := index.value;
      var kept, filtered := FilterSteps(x.parents, parentList, cfg, isCharm);
      var g := Graph(kept, x.particles, x.relations, x.indexD, x.description);
      if filtered.Fail? {
        Assign(g);
        return filtered;
      }
      var settled, outcome := Settle(g, Regenerates(parentList, cfg), cfg.disableDirectLeptons || HasSubstring(iam, "DPMJET"));
      Assign(settled);
      return outcome;
    }

    /** Replace the loaded tables. */
    method Assign(g: Graph)
      modifies this
      ensures Current() == g && iam == old(iam) && modPprod == old(modPprod)
    {
      parents, particles, relations, indexD, description := g.parents, g.particles, g.relations, g.indexD, g.description;
    }

    /** `mpli[ch][k] = m` on the registry of this object. */
    method RegisterEach(chs: seq<Channel>, k: ModKey, m: Mat)
      modifies this
      ensures modPprod == RegisterAll(old(modPprod), chs, k, m)
      ensures Current() == old(Current())
    {
      ghost var reg0 := modPprod;
      for i := 0 to |chs|
        invariant modPprod == RegisterAll(reg0, chs[..i], k, m)
        invariant Current() == old(Current())
      {
        assert chs[..i + 1][..i] == chs[..i];
        modPprod := Register(modPprod, chs[i], k, m);
      }
      assert chs[..|chs|] == chs;
    }

    /** The loop over the registered keys of the antiparticle channel that
        looks for a function named like the mode. */
    method ModeNamed(es: Entries, mode: string) returns (found: bool)
      ensures found == NameIsMode(es, mode)
    {
      for i := 0 to |es|
        invariant NameIsMode(es, mode) == NameIsMode(es[i..], mode)
      {
        if es[i].0.0 == mode {
          return true;
        }
        assert es[i..][1..] == es[i + 1..];
      }
      return false;
    }

    method AddPionCompanions(s: int, xf: XFunc, args: Args, kmat: Mat) returns (r: Result<bool>)
      modifies this
      ensures Registration(r, modPprod) == PionCompanions(old(modPprod), parents, s, xf, args, kmat, dim)
      ensures Current() == old(Current())
    {
      ghost var goal := PionCompanions(modPprod, parents, s, xf, args, kmat, dim);
      modPprod := Register(modPprod, (Neutron, Code(-s)), ("isospin", args), kmat);
      if Code(221) in parents || Code(223) in parents || Code(333) in parents {
        if (Proton, Code(-s)) in modPprod {
          assert goal == Registration(Err(TypeError), modPprod);
          return Err(TypeError);
        }
        var unflvArg := Args(args.mode, 0.5 * args.value);
        var unflmat := GenModMatrix(xf, unflvArg, dim);
        assert goal == Registration(Ok(true), RegisterAll(modPprod, Unflavored, ("isospin", unflvArg), unflmat));
        RegisterEach(Unflavored, ("isospin", unflvArg), unflmat);
      } else {
        assert goal == Registration(Ok(true), modPprod);
      }
      r := Ok(true);
    }

    method AddKaonCompanions(s: int, xf: XFunc, args: Args, kmat: Mat) returns (r: Result<bool>)
      modifies this
      ensures Registration(r, modPprod) == KaonCompanions(old(modPprod), s, xf, args, kmat, dim)
      ensures Current() == old(Current())
    {
      ghost var goal := KaonCompanions(modPprod, s, xf, args, kmat, dim);
      modPprod := Register(modPprod, (Neutron, Code(s)), ("isospin", args), kmat);
      var k0Arg := Args(args.mode, 0.5 * args.value);
      if (Proton, Code(-s)) in modPprod {
        var clash := ModeNamed(modPprod[(Proton, Code(-s))], args.mode);
        if clash {
          assert goal == Registration(Err(TypeError), modPprod);
          return Err(TypeError);
        }
      }
      var k0mat := GenModMatrix(xf, k0Arg, dim);
      assert goal == Registration(Ok(true), RegisterAll(modPprod, NeutralKaons, ("isospin", k0Arg), k0mat));
      RegisterEach(NeutralKaons, ("isospin", k0Arg), k0mat);
      r := Ok(true);
    }

    /** The isospin branch of `_set_mod_pprod`. */
    method AddCompanions(sec: Key, xf: XFunc, args: Args, kmat: Mat) returns (r: Result<bool>)
      modifies this
      ensures Registration(r, modPprod) == Companions(old(modPprod), parents, sec, xf, args, kmat, dim)
      ensures Current() == old(Current())
    {
      if sec.Pair? {
        return Err(TypeError);
      }
      var s := sec.code;
      if Abs(s) == 211 {
        r := AddPionCompanions(s, xf, args, kmat);
        return;
      } else if Abs(s) == 321 {
        r := AddKaonCompanions(s, xf, args, kmat);
        return;
      } else if Abs(s) == 411 {
        RegisterEach(CharmCompanions(s), ("isospin", args), kmat);
      } else if Abs(s) == 2212 {
        modPprod := Register(modPprod, (Neutron, Neutron), ("isospin", args), kmat);
      } else if Abs(s) == 2112 {
        modPprod := Register(modPprod, (Neutron, Proton), ("isospin", args), kmat);
      } else {
        return Err(NoIsospinRelation);
      }
      return Ok(true);
    }

    /** `_set_mod_pprod`: refuse other primaries under isospin symmetry, do
        nothing for a known function and arguments or a known function and
        mode, otherwise register the new factor and its isospin companions. */
    method SetModPprod(prim: Key, sec: Key, xf: XFunc, args: Args, useIsospinSym: bool) returns (r: Result<bool>)
      modifies this
      ensures Registration(r, modPprod) == SetMod(old(modPprod), parents, prim, sec, xf, args, useIsospinSym, dim)
      ensures Current() == old(Current())
    {
      var pstup := (prim, sec);
      if useIsospinSym && prim != Proton && prim != Neutron {
        return Err(UnsupportedPrimary);
      }
      var es := EntriesAt(modPprod, pstup);
      if HasKey(es, (xf.name, args)) {
        return Ok(false);
      }
      for i := 0 to |es|
        invariant SameMode(es, xf.name, args) == SameMode(es[i..], xf.name, args)
      {
        if es[i].0.0 == xf.name && es[i].0.1.mode == args.mode {
          return Ok(false);
        }
        assert es[i..][1..] == es[i + 1..];
      }
      var kmat := GenModMatrix(xf, args, dim);
      modPprod := Register(modPprod, pstup, (xf.name, args), kmat);
      if !useIsospinSym {
        return Ok(true);
      }
      r := AddCompanions(sec, xf, args, kmat);
    }

    /** `get_matrix` */
    function GetMatrix(parent: Key, child: Key, veto: bool): Result<Mat>
      reads this
    {
      MatrixOf(Current(), modPprod, parent, child, veto)
    }
  }

  // Properties of loading

  /** What the regeneration and the strip do to a graph. */
  lemma SettledShape(g: Graph, regenerate: bool, strip: bool)
    ensures var (h, o) := Settled(g, regenerate, strip);
      && h.parents == g.parents && h.indexD == g.indexD
      && (regenerate ==> Ascending(h.particles) && forall k :: k in h.particles <==> k in Reach(Restrict(g.relations, g.parents)))
      && (forall p, c | p in h.relations && c in h.relations[p] :: p in g.relations && c in g.relations[p])
      && (o.Pass? ==> h.relations.Keys == if regenerate then g.relations.Keys * Elems(g.parents) else g.relations.Keys)
      && (o.Pass? && strip ==> forall p, c | p in h.relations ::
            c in h.relations[p] <==> c in g.relations[p] && c.Pair? && !(10 < Abs(c.pdg) < 20))
      && (o.Fail? ==> strip)
  {
    var k := if regenerate then Restrict(g.relations, g.parents) else g.relations;
    StripLeptonsExact(k);
  }

  /** Every child the interaction index lists has a matrix: the hadronic
      dictionary and the electromagnetic one each pair their relations with
      their channels, and the merge keeps both. */
  lemma IndexConsistent(db: Db, mname: string, cfg: Config)
    requires InteractionIndex(db, mname, cfg).Ok?
    ensures var x := InteractionIndex(db, mname, cfg).value;
      Consistent(x.relations, x.indexD)
  {
    InteractionEquivalencesInert(db, mname, cfg);
    var t := db.hadronic[mname];
    var had := DbDictionary(t.group, cfg.disabledParticles, map[], t.dense);
    assert had.Ok?;
    DictionaryChannelsMatchRelations(t.group, cfg.disabledParticles, t.dense);
    WithEmConsistent(db, mname, cfg, had);
  }

  lemma WithEmConsistent(db: Db, mname: string, cfg: Config, had: Result<Index>)
    requires had.Ok? && Consistent(had.value.relations, had.value.indexD)
    requires WithEm(db, mname, cfg, had).Ok?
    ensures var x := WithEm(db, mname, cfg, had).value;
      Consistent(x.relations, x.indexD)
  {
    if cfg.enableEm {
      var mats := db.electromagnetic.value.mats;
      DictionaryChannelsMatchRelations(mats.group, cfg.disabledParticles, mats.dense);
    }
  }

  /** Filtering, regeneration and the lepton strip only drop relations and
      children, so a consistent index stays consistent. */
  lemma LoadedConsistent(x: Index, mname: string, parentList: Option<seq<Key>>, cfg: Config, isCharm: int -> bool)
    requires Consistent(x.relations, x.indexD)
    ensures var g := Loaded(x, mname, parentList, cfg, isCharm).0;
      Consistent(g.relations, g.indexD)
  {
    var f := FilterParents(x.parents, parentList, cfg, isCharm);
    SettledShape(Graph(f.0, x.particles, x.relations, x.indexD, x.description), Regenerates(parentList, cfg), StripsLeptons(mname, cfg));
  }

  /** After loading a stored model every listed child has a matrix. */
  lemma LoadKeepsChannels(db: Db, mname: string, parentList: Option<seq<Key>>, cfg: Config, isCharm: int -> bool)
    requires InteractionIndex(db, mname, cfg).Ok?
    ensures var g := Loaded(InteractionIndex(db, mname, cfg).value, mname, parentList, cfg, isCharm).0;
      Consistent(g.relations, g.indexD)
  {
    IndexConsistent(db, mname, cfg);
    LoadedConsistent(InteractionIndex(db, mname, cfg).value, mname, parentList, cfg, isCharm);
  }

  /** Loading a stored model never raises: its keys are all (code, tag)
      pairs, so neither the parent filters nor the lepton strip meet a bare
      integer. */
  lemma StoreIndexLoadsCleanly(db: Db, mname: string, parentList: Option<seq<Key>>, cfg: Config, isCharm: int -> bool)
    requires InteractionIndex(db, mname, cfg).Ok?
    ensures Loaded(InteractionIndex(db, mname, cfg).value, mname, parentList, cfg, isCharm).1 == Pass
  {
    var x := InteractionIndex(db, mname, cfg).value;
    InteractionKeysArePairs(db, mname, cfg);
    var f := FilterParents(x.parents, parentList, cfg, isCharm);
    var g := Graph(f.0, x.particles, x.relations, x.indexD, x.description);
    var h := Settled(g, Regenerates(parentList, cfg), false).0;
    StripLeptonsExact(h.relations);
  }

  /** When a filter is active, exactly the relations of the surviving
      parents remain, and the particles are, in ascending order, those
      parents and their children. */
  lemma LoadRegeneratesIndex(x: Index, mname: string, parentList: Option<seq<Key>>, cfg: Config, isCharm: int -> bool)
    requires Regenerates(parentList, cfg)
    requires Loaded(x, mname, parentList, cfg, isCharm).1 == Pass
    ensures var g := Loaded(x, mname, parentList, cfg, isCharm).0;
      && g.relations.Keys == x.relations.Keys * Elems(g.parents)
      && Ascending(g.particles)
      && (forall k :: k in g.particles <==> k in Reach(Restrict(x.relations, g.parents)))
  {
    var f := FilterParents(x.parents, parentList, cfg, isCharm);
    SettledShape(Graph(f.0, x.particles, x.relations, x.indexD, x.description), true, StripsLeptons(mname, cfg));
  }

  /** With the strip active (by option or for DPMJET), no relation keeps a
      lepton child (|code| between 11 and 19), and every other child of a
      kept parent is still listed. */
  lemma LoadStripsDirectLeptons(x: Index, mname: string, parentList: Option<seq<Key>>, cfg: Config, isCharm: int -> bool)
    requires StripsLeptons(mname, cfg)
    requires Loaded(x, mname, parentList, cfg, isCharm).1 == Pass
    ensures var g := Loaded(x, mname, parentList, cfg, isCharm).0;
      forall p, c | p in g.relations :: p in x.relations &&
        (c in g.relations[p] <==> c in x.relations[p] && c.Pair? && !(10 < Abs(c.pdg) < 20))
  {
    var f := FilterParents(x.parents, parentList, cfg, isCharm);
    SettledShape(Graph(f.0, x.particles, x.relations, x.indexD, x.description), Regenerates(parentList, cfg), true);
  }

  /** The allowed projectiles are bare integers and the parents are pairs,
      so a non-empty allow-list removes every parent and every relation. */
  lemma AllowedProjectilesDropAll(x: Index, mname: string, parentList: Option<seq<Key>>, cfg: Config, isCharm: int -> bool)
    requires cfg.allowedProjectiles != [] && forall k | k in cfg.allowedProjectiles :: k.Code?
    requires forall p | p in x.parents :: p.Pair?
    ensures Loaded(x, mname, parentList, cfg, isCharm).1 == Pass
    ensures forall k :: k !in Loaded(x, mname, parentList, cfg, isCharm).0.parents
    ensures Loaded(x, mname, parentList, cfg, isCharm).0.relations == map[]
  {
    var f := FilterParents(x.parents, parentList, cfg, isCharm);
    var g := Graph(f.0, x.particles, x.relations, x.indexD, x.description);
    var h := Settled(g, true, false).0;
    assert h.relations == map[];
    StripLeptonsExact(h.relations);
  }

  /** With the shipped settings every stored model loads with no parents. */
  lemma DefaultsDropAllProjectiles(db: Db, mname: string, parentList: Option<seq<Key>>, isCharm: int -> bool)
    requires InteractionIndex(db, mname, Defaults).Ok?
    ensures forall k :: k !in Loaded(InteractionIndex(db, mname, Defaults).value, mname, parentList, Defaults, isCharm).0.parents
  {
    InteractionKeysArePairs(db, mname, Defaults);
    AllowedProjectilesDropAll(InteractionIndex(db, mname, Defaults).value, mname, parentList, Defaults, isCharm);
  }

  // Properties of the lookup

  /** On consistent tables `get_matrix` raises a KeyError exactly for an
      unknown parent and the empty-matrix error exactly for an unlisted
      child; without the veto every listed child has a matrix. */
  lemma GetMatrixRaises(g: Graph, reg: Registry, parent: Key, child: Key, veto: bool)
    requires Consistent(g.relations, g.indexD)
    ensures MatrixOf(g, reg, parent, child, veto) == Err(KeyError) <==> parent !in g.relations
    ensures MatrixOf(g, reg, parent, child, veto) == Err(EmptyMatrix) <==> parent in g.relations && child !in g.relations[parent]
    ensures !veto ==> (MatrixOf(g, reg, parent, child, veto).Ok? <==> parent in g.relations && child in g.relations[parent])
    ensures veto ==> (MatrixOf(g, reg, parent, child, veto) == Err(TypeError) <==>
      parent in g.relations && child in g.relations[parent] && child.Pair?)
  {
  }

  /** Under the veto a meson and its antiparticle are both given the
      spectrum with the smaller weight in the window of columns 20 to 49;
      when the weights tie each keeps its own. */
  lemma VetoPicksLighter(indexD: map<Channel, Mat>, parent: Key, c: int)
    requires Abs(c) < 2000
    requires (parent, Code(c)) in indexD && (parent, Code(-c)) in indexD
    ensures var m := indexD[(parent, Code(c))];
      var anti := indexD[(parent, Code(-c))];
      var own := LeadingVeto(indexD, parent, Code(c), m, true);
      var mirror := LeadingVeto(indexD, parent, Code(-c), anti, true);
      && (WindowSum(m, 20, 50) > WindowSum(anti, 20, 50) ==> own == mirror == Ok(anti))
      && (WindowSum(m, 20, 50) < WindowSum(anti, 20, 50) ==> own == mirror == Ok(m))
      && (WindowSum(m, 20, 50) == WindowSum(anti, 20, 50) ==> own == Ok(m) && mirror == Ok(anti))
  {
    assert -(-c) == c;
  }

  /** A modification registered with isospin symmetry off, on a channel that
      had none, scales the stored matrix entry by entry; below the diagonal
      of the grid block the result is zero. */
  lemma RegisteredModificationApplies(g: Graph, reg: Registry, parents: seq<Key>, parent: Key, child: Key, xf: XFunc, args: Args, d: nat)
    requires EntriesAt(reg, (parent, child)) == []
    requires parent in g.relations && child in g.relations[parent] && (parent, child) in g.indexD
    ensures var r := SetMod(reg, parents, parent, child, xf, args, false, d);
      var m := g.indexD[(parent, child)];
      var f := xf.apply(args);
      && r.result == Ok(true)
      && MatrixOf(g, r.registry, parent, child, false).Ok?
      && var out := MatrixOf(g, r.registry, parent, child, false).value;
      && |out| == |m|
      && (forall i, j | 0 <= i < |m| && 0 <= j < |m[i]| && i < |f| && j < |f[i]| ::
            out[i][j] == if j < i < d then 0.0 else m[i][j] * f[i][j])
  {
    var r := SetMod(reg, parents, parent, child, xf, args, false, d);
    var kmat := GenModMatrix(xf, args, d);
    assert r.registry[(parent, child)] == [((xf.name, args), kmat)];
  }

  // Properties of the registry

  /** Every channel of the first registry is in the second with all its
      keys. */
  ghost predicate Grows(reg: Registry, reg': Registry) {
    forall ch | ch in reg :: ch in reg' && forall k :: HasKey(reg[ch], k) ==> HasKey(reg'[ch], k)
  }

  /** A registry that grows keeps every function-and-mode pair. */
  lemma {:induction false} GrowsKeepsModes(es: Entries, es': Entries, n: string, a: Args)
    requires forall k :: HasKey(es, k) ==> HasKey(es', k)
    requires SameMode(es, n, a)
    ensures SameMode(es', n, a)
  {
    var k := ModeWitness(es, n, a);
    ModeFromKey(es', k, n, a);
  }

  lemma {:induction false} ModeWitness(es: Entries, n: string, a: Args) returns (k: ModKey)
    requires SameMode(es, n, a)
    ensures HasKey(es, k) && k.0 == n && k.1.mode == a.mode
  {
    if es[0].0.0 == n && es[0].0.1.mode == a.mode {
      k := es[0].0;
    } else {
      k := ModeWitness(es[1..], n, a);
    }
  }

  lemma {:induction false} ModeFromKey(es: Entries, k: ModKey, n: string, a: Args)
    requires HasKey(es, k) && k.0 == n && k.1.mode == a.mode
    ensures SameMode(es, n, a)
  {
    if es[0].0 != k {
      ModeFromKey(es[1..], k, n, a);
    }
  }

  lemma RegisterGrows(reg: Registry, ch: Channel, k: ModKey, m: Mat)
    ensures Grows(reg, Register(reg, ch, k, m))
  {
  }

  lemma GrowsTransitive(a: Registry, b: Registry, c: Registry)
    requires Grows(a, b) && Grows(b, c)
    ensures Grows(a, c)
  {
  }

  lemma {:induction false} RegisterAllGrows(reg: Registry, chs: seq<Channel>, k: ModKey, m: Mat)
    ensures Grows(reg, RegisterAll(reg, chs, k, m))
  {
    if chs != [] {
      var front := RegisterAll(reg, chs[..|chs| - 1], k, m);
      RegisterAllGrows(reg, chs[..|chs| - 1], k, m);
      RegisterGrows(front, chs[|chs| - 1], k, m);
      GrowsTransitive(reg, front, RegisterAll(reg, chs, k, m));
    }
  }

  lemma PionCompanionsGrow(reg: Registry, parents: seq<Key>, s: int, xf: XFunc, args: Args, kmat: Mat, d: nat)
    ensures Grows(reg, PionCompanions(reg, parents, s, xf, args, kmat, d).registry)
  {
    var reg2 := Register(reg, (Neutron, Code(-s)), ("isospin", args), kmat);
    RegisterGrows(reg, (Neutron, Code(-s)), ("isospin", args), kmat);
    var ua := Args(args.mode, 0.5 * args.value);
    RegisterAllGrows(reg2, Unflavored, ("isospin", ua), GenModMatrix(xf, ua, d));
    GrowsTransitive(reg, reg2, RegisterAll(reg2, Unflavored, ("isospin", ua), GenModMatrix(xf, ua, d)));
  }

  lemma KaonCompanionsGrow(reg: Registry, s: int, xf: XFunc, args: Args, kmat: Mat, d: nat)
    ensures Grows(reg, KaonCompanions(reg, s, xf, args, kmat, d).registry)
  {
    var reg2 := Register(reg, (Neutron, Code(s)), ("isospin", args), kmat);
    RegisterGrows(reg, (Neutron, Code(s)), ("isospin", args), kmat);
    var ka := Args(args.mode, 0.5 * args.value);
    RegisterAllGrows(reg2, NeutralKaons, ("isospin", ka), GenModMatrix(xf, ka, d));
    GrowsTransitive(reg, reg2, RegisterAll(reg2, NeutralKaons, ("isospin", ka), GenModMatrix(xf, ka, d)));
  }

  lemma CompanionsGrow(reg: Registry, parents: seq<Key>, sec: Key, xf: XFunc, args: Args, kmat: Mat, d: nat)
    ensures Grows(reg, Companions(reg, parents, sec, xf, args, kmat, d).registry)
  {
    if sec.Code? {
      var s := sec.code;
      if Abs(s) == 211 {
        PionCompanionsGrow(reg, parents, s, xf, args, kmat, d);
      } else if Abs(s) == 321 {
        KaonCompanionsGrow(reg, s, xf, args, kmat, d);
      } else if Abs(s) == 411 {
        RegisterAllGrows(reg, CharmCompanions(s), ("isospin", args), kmat);
      } else if Abs(s) == 2212 {
        RegisterGrows(reg, (Neutron, Neutron), ("isospin", args), kmat);
      } else if Abs(s) == 2112 {
        RegisterGrows(reg, (Neutron, Proton), ("isospin", args), kmat);
      }
    }
  }

  /** A registration that gets past the primary check stores its entry
      before anything can raise, so the entry is there even when the
      isospin step fails. */
  lemma StoresBeforeRaising(reg: Registry, parents: seq<Key>, prim: Key, sec: Key, xf: XFunc, args: Args, useIso: bool, d: nat)
    requires !useIso || prim == Proton || prim == Neutron
    ensures var r := SetMod(reg, parents, prim, sec, xf, args, useIso, d).registry;
      Grows(reg, r) &&
      var es := EntriesAt(r, (prim, sec));
      HasKey(es, (xf.name, args)) || SameMode(es, xf.name, args)
  {
    var es := EntriesAt(reg, (prim, sec));
    if !(HasKey(es, (xf.name, args)) || SameMode(es, xf.name, args)) {
      var kmat := GenModMatrix(xf, args, d);
      var reg1 := Register(reg, (prim, sec), (xf.name, args), kmat);
      RegisterGrows(reg, (prim, sec), (xf.name, args), kmat);
      if useIso {
        CompanionsGrow(reg1, parents, sec, xf, args, kmat, d);
        GrowsTransitive(reg, reg1, Companions(reg1, parents, sec, xf, args, kmat, d).registry);
      }
    }
  }

  /** As written, `_set_mod_pprod` never reports a change: where the
      intended version stores an entry it stores the same entry and raises
      TypeError instead, without the isospin companions the intended
      version adds; where it stores nothing, both agree. */
  lemma CountNonzeroRaises(reg: Registry, parents: seq<Key>, prim: Key, sec: Key, xf: XFunc, args: Args, useIso: bool, d: nat)
    ensures var w := SetModAsWritten(reg, prim, sec, xf, args, useIso, d);
      var c := SetMod(reg, parents, prim, sec, xf, args, useIso, d);
      && w.result != Ok(true)
      && (w.result == Err(TypeError) <==>
            && (!useIso || prim == Proton || prim == Neutron)
            && !HasKey(EntriesAt(reg, (prim, sec)), (xf.name, args))
            && !SameMode(EntriesAt(reg, (prim, sec)), xf.name, args))
      && (w.result != Err(TypeError) ==> w == c)
      && (c.result == Ok(true) ==> w.result == Err(TypeError))
      && Grows(reg, w.registry) && Grows(w.registry, c.registry)
  {
    var es := EntriesAt(reg, (prim, sec));
    if !(useIso && prim != Proton && prim != Neutron) && !(HasKey(es, (xf.name, args)) || SameMode(es, xf.name, args)) {
      var kmat := GenModMatrix(xf, args, d);
      var reg1 := Register(reg, (prim, sec), (xf.name, args), kmat);
      RegisterGrows(reg, (prim, sec), (xf.name, args), kmat);
      if useIso {
        CompanionsGrow(reg1, parents, sec, xf, args, kmat, d);
      }
    }
  }

  /** The smallest input that shows it: a first modification of proton to
      positive pion production with isospin symmetry off. The intended
      version reports the change; the code as written raises. */
  lemma CountNonzeroExample(xf: XFunc, args: Args, d: nat)
    ensures SetMod(map[], [], Proton, Code(211), xf, args, false, d).result == Ok(true)
    ensures SetModAsWritten(map[], Proton, Code(211), xf, args, false, d).result == Err(TypeError)
  {
  }

  /** Registering the same function and arguments again, or the same
      function with the same mode, reports no change and leaves the
      registry as it is, also after a registration that raised. */
  lemma RegistrationIdempotent(reg: Registry, parents: seq<Key>, prim: Key, sec: Key, xf: XFunc, args: Args, useIso: bool, d: nat)
    requires !useIso || prim == Proton || prim == Neutron
    ensures var r := SetMod(reg, parents, prim, sec, xf, args, useIso, d).registry;
      SetMod(r, parents, prim, sec, xf, args, useIso, d) == Registration(Ok(false), r)
  {
    StoresBeforeRaising(reg, parents, prim, sec, xf, args, useIso, d);
  }

  /** Under isospin symmetry any primary other than the proton and the
      neutron is refused and nothing is stored. */
  lemma RejectsOtherPrimaries(reg: Registry, parents: seq<Key>, prim: Key, sec: Key, xf: XFunc, args: Args, d: nat)
    ensures SetMod(reg, parents, prim, sec, xf, args, true, d).result == Err(UnsupportedPrimary) <==> prim != Proton && prim != Neutron
    ensures prim != Proton && prim != Neutron ==> SetMod(reg, parents, prim, sec, xf, args, true, d).registry == reg
  {
  }

  /** With isospin symmetry off only the first entry of a channel is applied,
      so a later registration never changes a matrix that is already
      modified. */
  lemma FirstRegisteredWins(g: Graph, reg: Registry, parents: seq<Key>, prim: Key, sec: Key, xf: XFunc, args: Args, d: nat,
                            parent: Key, child: Key, veto: bool)
    requires (parent, child) in reg && reg[(parent, child)] != []
    ensures MatrixOf(g, SetMod(reg, parents, prim, sec, xf, args, false, d).registry, parent, child, veto)
         == MatrixOf(g, reg, parent, child, veto)
  {
    var r := SetMod(reg, parents, prim, sec, xf, args, false, d).registry;
    if (parent, child) == (prim, sec) && r != reg {
      var es := reg[(prim, sec)];
      assert es[0].0 != (xf.name, args);
      assert r[(prim, sec)][0] == es[0];
    }
  }

  /** A charged pion registered for a nucleon gives the neutron the opposite
      pion. The unflavoured mesons are looked up as bare integers among the
      parents; when the parents are pairs, as the store yields them, no
      unflavoured channel is ever touched. */
  lemma PionMirrorOnly(reg: Registry, parents: seq<Key>, prim: Key, s: int, xf: XFunc, args: Args, d: nat)
    requires prim == Proton || prim == Neutron
    requires Abs(s) == 211
    requires forall p | p in parents :: p.Pair?
    requires !HasKey(EntriesAt(reg, (prim, Code(s))), (xf.name, args)) && !SameMode(EntriesAt(reg, (prim, Code(s))), xf.name, args)
    ensures var r := SetMod(reg, parents, prim, Code(s), xf, args, true, d);
      && r.result == Ok(true)
      && r.registry.Keys == reg.Keys + {(prim, Code(s)), (Neutron, Code(-s))}
      && Find(r.registry[(Neutron, Code(-s))], ("isospin", args)) == Some(GenModMatrix(xf, args, d))
      && forall ch | ch in Unflavored && ch in reg :: r.registry[ch] == reg[ch]
  {
    var kmat := GenModMatrix(xf, args, d);
    var reg1 := Register(reg, (prim, Code(s)), (xf.name, args), kmat);
    PairParentsSkipUnflavored(reg1, parents, s, xf, args, kmat, d);
    var reg2 := Register(reg1, (Neutron, Code(-s)), ("isospin", args), kmat);
    forall ch | ch in Unflavored && ch in reg
      ensures reg2[ch] == reg[ch]
    {
      assert ch.1 in [Code(221), Code(223), Code(333)];
    }
  }

  lemma PairParentsSkipUnflavored(reg: Registry, parents: seq<Key>, s: int, xf: XFunc, args: Args, kmat: Mat, d: nat)
    requires forall p | p in parents :: p.Pair?
    ensures PionCompanions(reg, parents, s, xf, args, kmat, d)
         == Registration(Ok(true), Register(reg, (Neutron, Code(-s)), ("isospin", args), kmat))
  {
    assert Code(221) !in parents && Code(223) !in parents && Code(333) !in parents;
  }

  /** With an unflavoured meson among the parents, registering the second
      charged pion of the proton raises (the averaging adds an argument tuple
      to a number, or finds none), after both pion entries are stored. */
  lemma PionAveragingRaises(reg: Registry, parents: seq<Key>, prim: Key, s: int, xf: XFunc, args: Args, d: nat)
    requires prim == Proton || prim == Neutron
    requires Abs(s) == 211 && Code(221) in parents
    requires (Proton, Code(-s)) in reg
    requires !HasKey(EntriesAt(reg, (prim, Code(s))), (xf.name, args)) && !SameMode(EntriesAt(reg, (prim, Code(s))), xf.name, args)
    ensures var r := SetMod(reg, parents, prim, Code(s), xf, args, true, d);
      && r.result == Err(TypeError)
      && HasKey(r.registry[(prim, Code(s))], (xf.name, args))
      && HasKey(r.registry[(Neutron, Code(-s))], ("isospin", args))
  {
  }

  /** The partner of a neutron primary is fixed to the neutron: a neutron
      producing a proton is mirrored onto the neutron-to-neutron channel and
      the proton-to-neutron channel is left alone. */
  lemma NeutronPrimaryQuirk(reg: Registry, parents: seq<Key>, xf: XFunc, args: Args, d: nat)
    requires EntriesAt(reg, (Neutron, Proton)) == []
    ensures var r := SetMod(reg, parents, Neutron, Proton, xf, args, true, d);
      && r.result == Ok(true)
      && HasKey(r.registry[(Neutron, Neutron)], ("isospin", args))
      && r.registry.Keys == reg.Keys + {(Neutron, Proton), (Neutron, Neutron)}
      && ((Proton, Neutron) in reg ==> r.registry[(Proton, Neutron)] == reg[(Proton, Neutron)])
  {
  }
}
