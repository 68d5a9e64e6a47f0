/** The low-energy extension of a yield dictionary (`extend_to_low_energies`):
    every matrix of a high-energy interaction model is blended, column by
    column, with the matrix of a low-energy model for the same process.
    Columns are projectile energies: below a transition window only the
    low-energy model survives, above it only the high-energy one, and inside
    it the two are weighted linearly in the grid index. */
module LowEnergy {
  import opened Wrappers
  import opened Matrices
  import Settings
  import Compaction

  type Key = Compaction.YieldKey

  /** What a yield dictionary holds under one key: a channel matrix under a
      (projectile, secondary) tuple, the energy grid under "evec", other
      arrays or text under other names, and the extension settings under
      "le_ext". */
  datatype Value =
    | Matrix(m: Mat)
    | Vector(v: seq<real>)
    | Text(s: string)
    | Extension(heLeTransition: real, nbinsInterp: int, useUnknownCs: bool)

  type Dict = map<Key, Value>

  const EnergyGrid: Key := Compaction.Label("evec")
  const ExtensionKey: Key := Compaction.Label("le_ext")

  /** Python truthiness of an optional dictionary: present and non-empty. */
  predicate Truthy(d: Option<Dict>) {
    d.Some? && d.value != map[]
  }

  /** The dictionaries the extension works on: the loaded files when a file
      name is given, the arguments otherwise. */
  function Sources(heDi: Option<Dict>, leDi: Option<Dict>, fname: string, heFile: Dict, leFile: Dict)
    : (r: (Option<Dict>, Option<Dict>))
    ensures fname != "" ==> r == (Some(heFile), Some(leFile))
    ensures fname == "" ==> r == (heDi, leDi)
  {
    if fname != "" then (Some(heFile), Some(leFile)) else (heDi, leDi)
  }

  // ---------------------------------------------------------------------------
  // The transition window

  /** `np.count_nonzero(egr < x)` */
  function CountBelow(egr: seq<real>, x: real): (r: nat)
    ensures r <= |egr|
  {
    if egr == [] then 0 else (if egr[0] < x then 1 else 0) + CountBelow(egr[1..], x)
  }

  /** `nbins_interp / 2` on Python 2 integers: floor division. */
  function Half(nbins: int): int {
    nbins / 2
  }

  /** The length of `np.arange(t - h - 1, t + h + 1.1, 1)`, the ceiling of
      2h + 2.1 when that is positive. */
  function WindowSize(h: int): nat {
    if h >= -1 then 2 * h + 3 else 0
  }

  /** `intp_indices`: consecutive grid indices starting at t - h - 1. */
  function Indices(t: int, h: int): (r: seq<int>)
    ensures |r| == WindowSize(h)
    ensures forall j | 0 <= j < |r| :: r[j] == t - h - 1 + j
  {
    seq(WindowSize(h), j requires 0 <= j < WindowSize(h) => t - h - 1 + j)
  }

  /** `np.linspace(0, 1, n)`: a single point is 0. */
  function Scales(n: nat): (r: seq<real>)
    ensures |r| == n
  {
    seq(n, j requires 0 <= j < n => if n == 1 then 0.0 else j as real / (n - 1) as real)
  }

  function Reverse(s: seq<real>): (r: seq<real>)
    ensures |r| == |s| && forall j | 0 <= j < |s| :: r[j] == s[|s| - 1 - j]
  {
    seq(|s|, j requires 0 <= j < |s| => s[|s| - 1 - j])
  }

  /** Every index can subscript a sequence of length n (negative ones from
      the end). */
  predicate InRange(idx: seq<int>, n: nat) {
    forall j | 0 <= j < |idx| :: -(n as int) <= idx[j] < n
  }

  /** The column a (possibly negative) index designates. */
  function Wrap(i: int, n: nat): int {
    if i < 0 then i + n else i
  }

  // ---------------------------------------------------------------------------
  // Column operations on one matrix

  /** `m[:, :stop] *= 0` */
  function ZeroBefore(m: Mat, stop: nat): (r: Mat)
    ensures |r| == |m| && forall i | 0 <= i < |m| :: |r[i]| == |m[i]|
  {
    seq(|m|, i requires 0 <= i < |m| =>
      seq(|m[i]|, c requires 0 <= c < |m[i]| => if c < stop then 0.0 else m[i][c]))
  }

  /** `m[:, start:] *= 0` */
  function ZeroFrom(m: Mat, start: nat): (r: Mat)
    ensures |r| == |m| && forall i | 0 <= i < |m| :: |r[i]| == |m[i]|
  {
    seq(|m|, i requires 0 <= i < |m| =>
      seq(|m[i]|, c requires 0 <= c < |m[i]| => if c >= start then 0.0 else m[i][c]))
  }

  /** The position of the last index that designates column c: with repeated
      columns a fancy-indexed in-place product keeps the last write. */
  function LastHit(idx: seq<int>, n: nat, c: int): (r: Option<nat>)
    ensures r.Some? ==> r.value < |idx| && Wrap(idx[r.value], n) == c
  {
    if idx == [] then None
    else if Wrap(idx[|idx| - 1], n) == c then Some(|idx| - 1)
    else LastHit(idx[..|idx| - 1], n, c)
  }

  /** The factor `m[:, idx] *= w` applies to column c. */
  function Factor(idx: seq<int>, n: nat, w: seq<real>, c: int): real
    requires |w| == |idx|
  {
    match LastHit(idx, n, c)
    case Some(j) => w[j]
    case None => 1.0
  }

  /** `m[:, idx] *= w` with one weight per index, the same for every row. */
  function ScaleColumns(m: Mat, idx: seq<int>, w: seq<real>, n: nat): (r: Mat)
    requires |w| == |idx|
    ensures |r| == |m| && forall i | 0 <= i < |m| :: |r[i]| == |m[i]|
  {
    seq(|m|, i requires 0 <= i < |m| =>
      seq(|m[i]|, c requires 0 <= c < |m[i]| => m[i][c] * Factor(idx, n, w, c)))
  }

  /** The extended matrix of one process on a grid of n energies.  An empty
      window makes the first subscript raise IndexError, which the original
      catches: the two matrices are then added untouched. */
  function Blend(he: Mat, le: Mat, idx: seq<int>, w: seq<real>, n: nat): Mat
    requires |w| == |idx|
  {
    if idx == [] then Add(he, le)
    else
      Add(ScaleColumns(ZeroBefore(he, SliceBound(idx[0], n)), idx, w, n),
          ScaleColumns(ZeroFrom(le, SliceBound(idx[|idx| - 1], n)), idx, Reverse(w), n))
  }

  // ---------------------------------------------------------------------------
  // The dictionary

  function AsMat(v: Value): Mat {
    if v.Matrix? then v.m else []
  }

  /** The extended value under key k. */
  function Merged(k: Key, v: Value, le: Option<Dict>, idx: seq<int>, n: nat): Value {
    if k.Tuple? && le.Some? && k in le.value then Matrix(Blend(AsMat(v), AsMat(le.value[k]), idx, Scales(|idx|), n))
    else v
  }

  /** A tuple key of `he` that the low-energy dictionary cannot be asked
      about (`k not in None`). */
  predicate NoLowDict(he: Dict, le: Option<Dict>) {
    le.None? && exists k | k in he :: k.Tuple?
  }

  /** A tuple key of `he` the low-energy model does not know. */
  predicate Unknown(he: Dict, le: Option<Dict>, useUnknownCs: bool) {
    le.Some? && !useUnknownCs && exists k | k in he :: k.Tuple? && k !in le.value
  }

  /** The loop over the high-energy keys and the final "le_ext" entry. */
  function Merge(he: Dict, le: Option<Dict>, idx: seq<int>, n: nat, cfg: Settings.Config): Result<Dict> {
    if NoLowDict(he, le) then Err(TypeError)
    else if Unknown(he, le, cfg.useUnknownCs) then Err(UnknownProcess)
    else Ok((map k | k in he :: Merged(k, he[k], le, idx, n))
            [ExtensionKey := Extension(cfg.heLeTransition, cfg.nbinsInterp, cfg.useUnknownCs)])
  }

  /** `extend_to_low_energies(he_di, le_di, fname)`; heFile and leFile are
      the contents of the files a non-empty fname selects. */
  function Extended(heDi: Option<Dict>, leDi: Option<Dict>, fname: string, heFile: Dict, leFile: Dict,
                    cfg: Settings.Config): Result<Dict>
  {
    if Truthy(heDi) && Truthy(leDi) && fname != "" then Err(DictsAndFileName)
    else
      var (he, le) := Sources(heDi, leDi, fname, heFile, leFile);
      if he.None? then Err(TypeError)
      else if EnergyGrid !in he.value then Err(KeyError)
      else if !he.value[EnergyGrid].Vector? then Err(TypeError)
      else
        var egr := he.value[EnergyGrid].v;
        var t := CountBelow(egr, cfg.heLeTransition);
        if t == |egr| then Err(IndexError)
        else
          var idx := Indices(t, Half(cfg.nbinsInterp));
          if !InRange(idx, |egr|) then Err(IndexError)
          else Merge(he.value, le, idx, |egr|, cfg)
  }

  /** The arrays numpy can combine: every matrix under a tuple key of the
      high-energy dictionary, and the low-energy matrix of the same process,
      spans the energy grid in both directions. */
  predicate Shaped(he: Option<Dict>, le: Option<Dict>) {
    he.Some? && EnergyGrid in he.value && he.value[EnergyGrid].Vector? ==>
      var n := |he.value[EnergyGrid].v|;
      && (forall k | k in he.value && k.Tuple? :: he.value[k].Matrix? && Square(he.value[k].m, n))
      && (le.Some? ==> forall k | k in he.value && k.Tuple? && k in le.value ::
            le.value[k].Matrix? && Square(le.value[k].m, n))
  }

  /** `extend_to_low_energies`: the loop visits the keys of the high-energy
      dictionary in an arbitrary order. */
  method ExtendToLowEnergies(heDi: Option<Dict>, leDi: Option<Dict>, fname: string,
                             heFile: Dict, leFile: Dict, cfg: Settings.Config)
    returns (r: Result<Dict>)
    requires Shaped(Sources(heDi, leDi, fname, heFile, leFile).0, Sources(heDi, leDi, fname, heFile, leFile).1)
    ensures r == Extended(heDi, leDi, fname, heFile, leFile, cfg)
  {
    if Truthy(heDi) && Truthy(leDi) && fname != "" {
      return Err(DictsAndFileName);
    }
    var he, le := heDi, leDi;
    if fname != "" {
      he, le := Some(heFile), Some(leFile);
    }
    if he.None? {
      return Err(TypeError);
    }
    if EnergyGrid !in he.value {
      return Err(KeyError);
    }
    if !he.value[EnergyGrid].Vector? {
      return Err(TypeError);
    }
    var egr := he.value[EnergyGrid].v;
    var t := CountBelow(egr, cfg.heLeTransition);
    if t == |egr| {
      return Err(IndexError);
    }
    var idx := Indices(t, Half(cfg.nbinsInterp));
    if !InRange(idx, |egr|) {
      return Err(IndexError);
    }
    r := MergeKeys(he.value, le, idx, |egr|, cfg);
  }

  /** The loop over the keys of the high-energy dictionary. */
  method MergeKeys(he: Dict, le: Option<Dict>, idx: seq<int>, n: nat, cfg: Settings.Config)
    returns (r: Result<Dict>)
    ensures r == Merge(he, le, idx, n, cfg)
  {
    var ext: Dict := map[];
    var todo := he.Keys;
    ghost var done: set<Key> := {};
    while todo != {}
      invariant todo + done == he.Keys && todo !! done
      invariant ext == Partial(he, le, idx, n, done)
      invariant Accepted(he, le, cfg.useUnknownCs, done)
      decreases |todo|
    {
      var k :| k in todo;
      var v;
      if k.Tuple? {
        if le.None? {
          MergeRejects(he, le, idx, n, cfg, k);
          return Err(TypeError);
        }
        if k !in le.value {
          if !cfg.useUnknownCs {
            MergeRejects(he, le, idx, n, cfg, k);
            return Err(UnknownProcess);
          }
          v := he[k];
        } else {
          v := Matrix(Blend(AsMat(he[k]), AsMat(le.value[k]), idx, Scales(|idx|), n));
        }
      } else {
        v := he[k];
      }
      assert v == Merged(k, he[k], le, idx, n);
      PartialGrows(he, le, idx, n, done, k);
      ext := ext[k := v];
      todo := todo - {k};
      done := done + {k};
    }
    MergeAccepts(he, le, idx, n, cfg);
    ext := ext[ExtensionKey := Extension(cfg.heLeTransition, cfg.nbinsInterp, cfg.useUnknownCs)];
    r := Ok(ext);
  }

  /** The extended entries of the keys visited so far. */
  function Partial(he: Dict, le: Option<Dict>, idx: seq<int>, n: nat, done: set<Key>): Dict
    requires done <= he.Keys
  {
    map k | k in done :: Merged(k, he[k], le, idx, n)
  }

  /** None of the keys visited so far raised. */
  predicate Accepted(he: Dict, le: Option<Dict>, useUnknownCs: bool, done: set<Key>) {
    forall k | k in done && k.Tuple? :: le.Some? && (k in le.value || useUnknownCs)
  }

  lemma PartialGrows(he: Dict, le: Option<Dict>, idx: seq<int>, n: nat, done: set<Key>, k: Key)
    requires done <= he.Keys && k in he
    ensures Partial(he, le, idx, n, done)[k := Merged(k, he[k], le, idx, n)] == Partial(he, le, idx, n, done + {k})
  {
  }

  lemma MergeRejects(he: Dict, le: Option<Dict>, idx: seq<int>, n: nat, cfg: Settings.Config, k: Key)
    requires k in he && k.Tuple?
    ensures le.None? ==> Merge(he, le, idx, n, cfg) == Err(TypeError)
    ensures le.Some? && k !in le.value && !cfg.useUnknownCs ==> Merge(he, le, idx, n, cfg) == Err(UnknownProcess)
  {
  }

  lemma MergeAccepts(he: Dict, le: Option<Dict>, idx: seq<int>, n: nat, cfg: Settings.Config)
    requires Accepted(he, le, cfg.useUnknownCs, he.Keys)
    ensures Merge(he, le, idx, n, cfg)
         == Ok(Partial(he, le, idx, n, he.Keys)[ExtensionKey := Extension(cfg.heLeTransition, cfg.nbinsInterp, cfg.useUnknownCs)])
  {
    assert !NoLowDict(he, le) && !Unknown(he, le, cfg.useUnknownCs);
  }

  // ---------------------------------------------------------------------------
  // Properties

  predicate SortedGrid(egr: seq<real>) {
    forall i, j | 0 <= i < j < |egr| :: egr[i] <= egr[j]
  }

  /** On an ascending grid the transition index separates the energies below
      the transition energy from the others. */
  lemma {:induction false} TransitionIndexSplitsGrid(egr: seq<real>, x: real)
    requires SortedGrid(egr)
    ensures forall i | 0 <= i < |egr| :: i < CountBelow(egr, x) <==> egr[i] < x
  {
    if egr != [] {
      var rest := egr[1..];
      assert SortedGrid(rest) by {
        forall i, j | 0 <= i < j < |rest| ensures rest[i] <= rest[j] {
          assert rest[i] == egr[i + 1] && rest[j] == egr[j + 1];
        }
      }
      TransitionIndexSplitsGrid(rest, x);
      forall i | 0 <= i < |egr| ensures i < CountBelow(egr, x) <==> egr[i] < x {
        if i > 0 {
          assert egr[i] == rest[i - 1];
          if egr[0] >= x {
            assert egr[0] <= egr[i];
            assert !(rest[i - 1] < x) by { assert egr[i] >= x; }
          }
        }
      }
    }
  }

  /** The shipped setting of three interpolation bins gives a window of five
      indices centred on the transition index. */
  lemma DefaultWindow(t: int)
    ensures Indices(t, Half(Settings.Defaults.nbinsInterp)) == [t - 2, t - 1, t, t + 1, t + 2]
  {
    var idx := Indices(t, Half(Settings.Defaults.nbinsInterp));
    assert |idx| == 5;
    assert idx[0] == t - 2 && idx[1] == t - 1 && idx[2] == t && idx[3] == t + 1 && idx[4] == t + 2;
  }

  /** A window is empty exactly when fewer than -2 bins are requested; the
      extension then adds the two matrices untouched. */
  lemma EmptyWindow(t: int, nbins: int, he: Mat, le: Mat, n: nat)
    ensures Indices(t, Half(nbins)) == [] <==> nbins <= -3
    ensures nbins <= -3 ==> Blend(he, le, Indices(t, Half(nbins)), [], n) == Add(he, le)
  {
  }

  /** The two weights of a column inside a window of at least two indices add
      up to one. */
  lemma WeightsSumToOne(m: nat, j: nat)
    requires 2 <= m && j < m
    ensures Scales(m)[j] + Scales(m)[m - 1 - j] == 1.0
  {
    var s := Scales(m);
    var d := (m - 1) as real;
    assert s[j] == j as real / d;
    assert s[m - 1 - j] == (m - 1 - j) as real / d;
    calc {
      s[j] + s[m - 1 - j];
      (j as real + (m - 1 - j) as real) / d;
      d / d;
      1.0;
    }
  }

  predicate Consecutive(idx: seq<int>) {
    forall j | 0 <= j < |idx| :: idx[j] == idx[0] + j
  }

  /** Consecutive indices inside the grid designate each column at most once:
      the window column c - a, or none. */
  lemma {:induction false} ConsecutiveHits(idx: seq<int>, a: int, n: nat, c: int)
    requires forall j | 0 <= j < |idx| :: idx[j] == a + j
    requires 0 <= a && a + |idx| <= n
    ensures LastHit(idx, n, c) == if a <= c < a + |idx| then Some(c - a) else None
  {
    if idx != [] {
      var pre := idx[..|idx| - 1];
      assert forall j | 0 <= j < |pre| :: pre[j] == a + j;
      ConsecutiveHits(pre, a, n, c);
    }
  }

  /** The weights `np.linspace(0, 1, m)`: the grid position over the window
      length, from 0 at the first index to 1 at the last. */
  lemma ScalesAreLinear(m: nat, j: nat)
    requires j < m
    ensures Scales(m)[0] == 0.0
    ensures 2 <= m ==> Scales(m)[j] == j as real / (m - 1) as real && Scales(m)[m - 1] == 1.0
  {
    if 2 <= m {
      var d := (m - 1) as real;
      assert d != 0.0 && d / d == 1.0;
      assert Scales(m)[m - 1] == d / d;
    }
  }

  /** The extended matrix of a window inside the grid, with weights w that
      start at zero (as the linspace weights do): the low-energy model below
      the window, the high-energy model above it, and inside it the
      high-energy entry weighted by the window position plus the low-energy
      entry weighted by the mirrored position. */
  lemma BlendRegions(he: Mat, le: Mat, idx: seq<int>, w: seq<real>, n: nat, r: nat, c: nat)
    requires Square(he, n) && Square(le, n) && r < n && c < n && |w| == |idx|
    requires idx != [] && Consecutive(idx) && 0 <= idx[0] && idx[0] + |idx| <= n && w[0] == 0.0
    ensures c < idx[0] ==> Blend(he, le, idx, w, n)[r][c] == le[r][c]
    ensures idx[0] + |idx| <= c ==> Blend(he, le, idx, w, n)[r][c] == he[r][c]
    ensures idx[0] <= c < idx[0] + |idx| ==>
      Blend(he, le, idx, w, n)[r][c] == he[r][c] * w[c - idx[0]] + le[r][c] * w[|idx| - 1 - (c - idx[0])]
  {
    var a, m := idx[0], |idx|;
    HighPart(he, idx, w, n, r, c);
    LowPart(le, idx, w, n, r, c);
    if c == a + m - 1 {
      assert w[m - 1 - (c - a)] == 0.0;
    }
  }

  lemma HighPart(he: Mat, idx: seq<int>, w: seq<real>, n: nat, r: nat, c: nat)
    requires Square(he, n) && r < n && c < n && |w| == |idx|
    requires idx != [] && Consecutive(idx) && 0 <= idx[0] && idx[0] + |idx| <= n
    ensures var a := idx[0];
      ScaleColumns(ZeroBefore(he, SliceBound(a, n)), idx, w, n)[r][c]
        == if c < a then 0.0 else if c < a + |idx| then he[r][c] * w[c - a] else he[r][c]
  {
    ConsecutiveHits(idx, idx[0], n, c);
  }

  lemma LowPart(le: Mat, idx: seq<int>, w: seq<real>, n: nat, r: nat, c: nat)
    requires Square(le, n) && r < n && c < n && |w| == |idx|
    requires idx != [] && Consecutive(idx) && 0 <= idx[0] && idx[0] + |idx| <= n
    ensures var a, m := idx[0], |idx|;
      ScaleColumns(ZeroFrom(le, SliceBound(idx[m - 1], n)), idx, Reverse(w), n)[r][c]
        == if c < a then le[r][c] else if c < a + m - 1 then le[r][c] * w[m - 1 - (c - a)] else 0.0
  {
    ConsecutiveHits(idx, idx[0], n, c);
  }

  /** A transition index so close to the start of the grid that the window
      begins at a negative index: the negative index counts from the end of
      the grid, so the high-energy matrix is cleared up to that point and the
      low-energy one from the end of the window on, and every column in
      between ends up zero in the extended matrix. */
  lemma WindowAtGridStartClearsMiddle(he: Mat, le: Mat, idx: seq<int>, n: nat, r: nat, c: nat)
    requires Square(he, n) && Square(le, n) && r < n && c < n
    requires idx != [] && InRange(idx, n) && idx[0] < 0 && 0 <= idx[|idx| - 1]
    requires idx[|idx| - 1] <= c < n + idx[0]
    ensures Blend(he, le, idx, Scales(|idx|), n)[r][c] == 0.0
  {
    var s := Scales(|idx|);
    var H := ScaleColumns(ZeroBefore(he, SliceBound(idx[0], n)), idx, s, n);
    var L := ScaleColumns(ZeroFrom(le, SliceBound(idx[|idx| - 1], n)), idx, Reverse(s), n);
    assert Blend(he, le, idx, s, n)[r][c] == H[r][c] + L[r][c];
    assert SliceBound(idx[0], n) == n + idx[0];
    assert H[r][c] == 0.0;
    assert L[r][c] == 0.0;
  }

  /** What a successful extension holds: every key of the high-energy
      dictionary and "le_ext"; names other than "le_ext" and processes the
      low-energy model lacks keep their high-energy value; every other
      process is blended. */
  lemma MergeEntries(he: Dict, le: Option<Dict>, idx: seq<int>, n: nat, cfg: Settings.Config)
    requires Merge(he, le, idx, n, cfg).Ok?
    ensures var d := Merge(he, le, idx, n, cfg).value;
      && d.Keys == he.Keys + {ExtensionKey}
      && d[ExtensionKey] == Extension(cfg.heLeTransition, cfg.nbinsInterp, cfg.useUnknownCs)
      && (forall k | k in he && k != ExtensionKey && !k.Tuple? :: d[k] == he[k])
      && (forall k | k in he && k.Tuple? :: le.Some? && (k in le.value || cfg.useUnknownCs))
      && (forall k | k in he && k.Tuple? && k !in le.value :: d[k] == he[k])
      && (forall k | k in he && k.Tuple? && k in le.value ::
            d[k] == Matrix(Blend(AsMat(he[k]), AsMat(le.value[k]), idx, Scales(|idx|), n)))
  {
    forall k | k in he && k.Tuple? ensures le.Some? && (k in le.value || cfg.useUnknownCs) {
      assert !NoLowDict(he, le);
      assert !Unknown(he, le, cfg.useUnknownCs);
    }
  }
}
