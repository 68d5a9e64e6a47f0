/** The conversion of an interaction model to compact mode
    (`convert_to_compact`): the secondary index of a yield dictionary, the
    feed-down of unstable secondaries through their decay chains into the
    standard particles, and the loop over the projectiles. */
module Compaction {
  import opened Wrappers
  import opened Pdg
  import opened Matrices

  /** A key of a yield or decay dictionary: a tuple of PDG codes, or the
      name of a metadata entry (`'ebins'`, `'evec'`, `'mname'`). */
  datatype YieldKey = Tuple(items: seq<int>) | Label(name: string)

  type Yields = map<YieldKey, Mat>
  /** Projectile (or decaying parent) to its secondaries. */
  type SecIndex = map<int, seq<int>>
  /** The compact dictionary: (projectile, secondary) to its matrix. */
  type Compact = map<(int, int), Mat>

  /** The dictionary key of a (code, code) pair. */
  function TupleOf(k: Key): YieldKey
    requires k.Pair?
  {
    Tuple([k.pdg, k.tag])
  }

  /** The keys that unpack into `proj, sec`, as pairs (they compare like the
      tuples they come from). */
  function PairKeys(y: Yields): (s: set<Key>)
    ensures forall k | k in s :: k.Pair? && TupleOf(k) in y
  {
    var s := set k | k in y && k.Tuple? && |k.items| == 2 :: Pair(k.items[0], k.items[1]);
    assert forall k | k in s :: k.Pair? && TupleOf(k) in y by {
      forall k | k in s ensures k.Pair? && TupleOf(k) in y {
        var t :| t in y && t.Tuple? && |t.items| == 2 && k == Pair(t.items[0], t.items[1]);
        assert t.items == [k.pdg, k.tag];
      }
    }
    s
  }

  /** Keys that name pairs of the dictionary. */
  predicate InDict(y: Yields, order: seq<Key>) {
    forall k | k in order :: k.Pair? && TupleOf(k) in y
  }

  /** One entry of `create_secondary_dict`: the projectile is listed, and
      the secondary too when its matrix has a positive sum (the assertion
      rejects a secondary listed twice). */
  function Enter(idx: SecIndex, proj: int, sec: int, m: Mat): Result<SecIndex> {
    var idx1 := if proj in idx then idx else idx[proj := []];
    if Sum(m) > 0.0 then
      if sec in idx1[proj] then Err(AssertionFailure) else Ok(idx1[proj := idx1[proj] + [sec]])
    else Ok(idx1)
  }

  /** The index after the given pairs, in order. */
  function IndexOf(y: Yields, order: seq<Key>): Result<SecIndex>
    requires InDict(y, order)
  {
    if order == [] then Ok(map[])
    else
      match IndexOf(y, order[..|order| - 1])
      case Err(e) => Err(e)
      case Ok(idx) =>
        var k := order[|order| - 1];
        Enter(idx, k.pdg, k.tag, y[TupleOf(k)])
  }

  /** `create_secondary_dict`: the entries in ascending key order. */
  function SecondaryIndex(y: Yields): Result<SecIndex> {
    IndexOf(y, SortSet(PairKeys(y)))
  }

  /** `create_secondary_dict` */
  method CreateSecondaryDict(y: Yields) returns (r: Result<SecIndex>)
    ensures r == SecondaryIndex(y)
  {
    var order := SortSet(PairKeys(y));
    var idx: SecIndex := map[];
    for i := 0 to |order|
      invariant IndexOf(y, order[..i]) == Ok(idx)
    {
      IndexOfStep(y, order, i, idx);
      var proj, sec := order[i].pdg, order[i].tag;
      var m := y[TupleOf(order[i])];
      if proj !in idx {
        idx := idx[proj := []];
      }
      if Sum(m) > 0.0 {
        if sec in idx[proj] {
          IndexOfFailsAfter(y, order, i + 1);
          return Err(AssertionFailure);
        }
        idx := idx[proj := idx[proj] + [sec]];
      }
    }
    assert order[..|order|] == order;
    return Ok(idx);
  }

  /** The fold after one more pair. */
  lemma IndexOfStep(y: Yields, order: seq<Key>, i: nat, idx: SecIndex)
    requires InDict(y, order) && i < |order| && IndexOf(y, order[..i]) == Ok(idx)
    ensures IndexOf(y, order[..i + 1]) == Enter(idx, order[i].pdg, order[i].tag, y[TupleOf(order[i])])
  {
    assert order[..i + 1][..i] == order[..i];
  }

  /** The index lists every projectile of the given pairs, and under it
      exactly the secondaries with a positive matrix sum, in ascending
      order. */
  ghost predicate Indexes(idx: SecIndex, y: Yields, keys: set<Key>)
    requires forall k | k in keys :: k.Pair? && TupleOf(k) in y
  {
    && (forall p :: p in idx <==> exists k | k in keys :: k.pdg == p)
    && (forall p, s | p in idx :: s in idx[p] <==> Pair(p, s) in keys && Sum(y[TupleOf(Pair(p, s))]) > 0.0)
    && (forall p | p in idx :: Increasing(idx[p]))
  }

  /** A failure stops the fold: the remaining pairs are not entered. */
  lemma {:induction false} IndexOfFailsAfter(y: Yields, order: seq<Key>, i: nat)
    requires InDict(y, order) && i <= |order| && IndexOf(y, order[..i]).Err?
    ensures IndexOf(y, order) == IndexOf(y, order[..i])
    decreases |order| - i
  {
    if i < |order| {
      assert order[..i + 1][..i] == order[..i];
      IndexOfFailsAfter(y, order, i + 1);
    } else {
      assert order[..i] == order;
    }
  }

  /** `Enter` on an index of earlier, smaller pairs of the same
      projectile. */
  function Entered(idx: SecIndex, y: Yields, k: Key): SecIndex
    requires k.Pair? && TupleOf(k) in y
  {
    var p := k.pdg;
    var idx1 := if p in idx then idx else idx[p := []];
    if Sum(y[TupleOf(k)]) > 0.0 then idx1[p := idx1[p] + [k.tag]] else idx1
  }

  lemma EnterShape(idx: SecIndex, y: Yields, keys: set<Key>, k: Key)
    requires forall k | k in keys :: k.Pair? && TupleOf(k) in y
    requires k.Pair? && TupleOf(k) in y && k !in keys
    requires Indexes(idx, y, keys)
    requires forall q | q in keys && q.pdg == k.pdg :: q.tag < k.tag
    ensures Enter(idx, k.pdg, k.tag, y[TupleOf(k)]).Ok?
    ensures Indexes(Enter(idx, k.pdg, k.tag, y[TupleOf(k)]).value, y, keys + {k})
  {
    var p := k.pdg;
    assert p in idx ==> forall s | s in idx[p] :: s < k.tag;
    assert Enter(idx, p, k.tag, y[TupleOf(k)]) == Ok(Entered(idx, y, k));
    EnteredKeys(idx, y, keys, k);
    EnteredSecondaries(idx, y, keys, k);
    EnteredOrder(idx, y, keys, k);
  }

  lemma EnteredKeys(idx: SecIndex, y: Yields, keys: set<Key>, k: Key)
    requires forall k | k in keys :: k.Pair? && TupleOf(k) in y
    requires k.Pair? && TupleOf(k) in y
    requires forall p :: p in idx <==> exists k | k in keys :: k.pdg == p
    ensures forall p :: p in Entered(idx, y, k) <==> exists k' | k' in keys + {k} :: k'.pdg == p
  {
    var idx2 := Entered(idx, y, k);
    forall q ensures q in idx2 <==> exists k' | k' in keys + {k} :: k'.pdg == q {
      if q in idx2 && q != k.pdg {
        var k' :| k' in keys && k'.pdg == q;
        assert k' in keys + {k};
      }
    }
  }

  lemma EnteredSecondaries(idx: SecIndex, y: Yields, keys: set<Key>, k: Key)
    requires forall k | k in keys :: k.Pair? && TupleOf(k) in y
    requires k.Pair? && TupleOf(k) in y && k !in keys
    requires Indexes(idx, y, keys)
    ensures forall p, s | p in Entered(idx, y, k) :: s in Entered(idx, y, k)[p] <==> Pair(p, s) in keys + {k} && Sum(y[TupleOf(Pair(p, s))]) > 0.0
  {
    var p := k.pdg;
    var idx1 := if p in idx then idx else idx[p := []];
    assert forall s | Pair(p, s) in keys :: p in idx;
    assert forall s :: s in idx1[p] <==> Pair(p, s) in keys && Sum(y[TupleOf(Pair(p, s))]) > 0.0;
  }

  lemma EnteredOrder(idx: SecIndex, y: Yields, keys: set<Key>, k: Key)
    requires k.Pair? && TupleOf(k) in y
    requires forall p | p in idx :: Increasing(idx[p])
    requires k.pdg in idx ==> forall s | s in idx[k.pdg] :: s < k.tag
    ensures forall p | p in Entered(idx, y, k) :: Increasing(Entered(idx, y, k)[p])
  {
    var p := k.pdg;
    var idx1 := if p in idx then idx else idx[p := []];
    var t := idx1[p] + [k.tag];
    assert forall i | 0 <= i < |idx1[p]| :: t[i] == idx1[p][i] && t[i] in idx1[p];
  }

  lemma {:induction false} IndexOfShape(y: Yields, order: seq<Key>)
    requires InDict(y, order) && Ascending(order)
    ensures IndexOf(y, order).Ok? && Indexes(IndexOf(y, order).value, y, Elems(order))
  {
    if order != [] {
      var pre := order[..|order| - 1];
      var k := order[|order| - 1];
      assert Ascending(pre);
      IndexOfShape(y, pre);
      assert Elems(order) == Elems(pre) + {k};
      forall q | q in Elems(pre) && q.pdg == k.pdg ensures q.tag < k.tag {
        var j :| 0 <= j < |pre| && pre[j] == q;
        assert Le(order[j], k) && order[j] != k;
      }
      assert forall j | 0 <= j < |pre| :: pre[j] == order[j] != k;
      EnterShape(IndexOf(y, pre).value, y, Elems(pre), k);
    }
  }

  /** `create_secondary_dict` never fails its assertion; it lists every
      projectile that has a pair key, even one whose matrices are all zero,
      and under it exactly the secondaries whose matrix has a positive sum,
      each once and in ascending order. */
  lemma SecondaryIndexExact(y: Yields)
    ensures SecondaryIndex(y).Ok?
    ensures var idx := SecondaryIndex(y).value;
      && (forall p :: p in idx <==> exists s :: Tuple([p, s]) in y)
      && (forall p, s | p in idx :: s in idx[p] <==> Tuple([p, s]) in y && Sum(y[Tuple([p, s])]) > 0.0)
      && (forall p | p in idx :: Increasing(idx[p]))
  {
    var keys := PairKeys(y);
    IndexOfShape(y, SortSet(keys));
    assert Elems(SortSet(keys)) == keys;
    var idx := SecondaryIndex(y).value;
    forall p, s ensures Tuple([p, s]) in y <==> Pair(p, s) in keys {
      if Tuple([p, s]) in y {
        var t := Tuple([p, s]);
        assert Pair(t.items[0], t.items[1]) in keys;
      }
    }
    forall p ensures p in idx <==> exists s :: Tuple([p, s]) in y {
      if p in idx {
        var k :| k in keys && k.pdg == p;
        assert Tuple([p, k.tag]) in y;
      }
      if exists s :: Tuple([p, s]) in y {
        var s :| Tuple([p, s]) in y;
        assert Pair(p, s) in keys;
      }
    }
  }

  // The feed-down

  /** What the conversion reads: the yields (`mdi`), the decay matrices
      (`ddi`) and their index (`dec_di`), the standard particles, the
      lifetimes `ctau`, whether DPMJET charm secondaries are skipped (the
      option is set and the file name contains "DPMJET"), and the charm
      test. */
  datatype Inputs = Inputs(
    mdi: Yields,
    ddi: Yields,
    decIdx: SecIndex,
    standard: seq<int>,
    ctau: int -> real,
    skipCharm: bool,
    isCharm: int -> bool)

  /** The neutrino and muon codes that get a prompt copy. */
  const PromptLeptons: seq<int> := [12, 13, 14, 16]

  /** The number of intermediates that live no longer than the K0S
      (`ctau(mo) <= ctau(310)`). */
  function ShortLived(ctau: int -> real, interm: seq<int>): nat {
    if interm == [] then 0
    else (if ctau(interm[0]) <= ctau(310) then 1 else 0) + ShortLived(ctau, interm[1..])
  }

  /** The label of a standard daughter: a lepton from a chain with a
      short-lived intermediate moves to the prompt code sign(d)(7000 + |d|). */
  function Relabel(d: int, interm: seq<int>, ctau: int -> real): int {
    if Abs(d) in PromptLeptons && ShortLived(ctau, interm) > 0 then Sign(d) * (7000 + Abs(d)) else d
  }

  /** `compact_di[key] += m`, or a new entry when the key is absent. */
  function Contribute(acc: Compact, key: (int, int), m: Mat): (r: Compact)
    ensures r.Keys == acc.Keys + {key}
    ensures r[key] == if key in acc then Add(acc[key], m) else m
    ensures forall k | k in acc && k != key :: r[k] == acc[k]
  {
    if key in acc then acc[key := Add(acc[key], m)] else acc[key := m]
  }

  /** `follow_chained_decay(mother, mat, interm)`: the dictionary it leaves
      and how it ended. The fuel is the recursion depth still allowed. */
  function FeedDown(inp: Inputs, acc: Compact, mother: int, mat: Mat, interm: seq<int>, fuel: nat): (Compact, Outcome)
    requires interm != []
    decreases fuel, 1, 0
  {
    var last := interm[|interm| - 1];
    if last !in inp.decIdx || last in inp.standard then (acc, Pass)
    else FeedChildren(inp, acc, mother, mat, interm, inp.decIdx[last], fuel)
  }

  /** The loop over the daughters `ds` of the last intermediate. */
  function FeedChildren(inp: Inputs, acc: Compact, mother: int, mat: Mat, interm: seq<int>, ds: seq<int>, fuel: nat): (Compact, Outcome)
    requires interm != []
    decreases fuel, 0, |ds|
  {
    if ds == [] then (acc, Pass)
    else
      var last, d := interm[|interm| - 1], ds[0];
      if Tuple([last, d]) !in inp.ddi then (acc, Fail(KeyError))
      else
        var mprod := Product(inp.ddi[Tuple([last, d])], mat);
        if Sum(mprod) < 0.0000000000000000000000000000000000000001 then
          FeedChildren(inp, acc, mother, mat, interm, ds[1..], fuel)
        else if d !in inp.standard then
          if fuel == 0 then (acc, Fail(RecursionDepth))
          else
            var sub := FeedDown(inp, acc, mother, mprod, interm + [d], fuel - 1);
            if sub.1.Fail? then sub
            else FeedChildren(inp, sub.0, mother, mat, interm, ds[1..], fuel)
        else
          FeedChildren(inp, Contribute(acc, (mother, Relabel(d, interm, inp.ctau)), mprod), mother, mat, interm, ds[1..], fuel)
  }

  /** The charm secondaries skipped for DPMJET. */
  predicate CharmSkipped(inp: Inputs, sec: int) {
    inp.skipCharm && inp.isCharm(sec)
  }

  /** The first loop over a projectile's secondaries: copy the standard
      ones. */
  function CopyDirect(inp: Inputs, acc: Compact, proj: int, secs: seq<int>): (Compact, Outcome)
    decreases |secs|
  {
    if secs == [] then (acc, Pass)
    else
      var s := secs[0];
      if CharmSkipped(inp, s) || s !in inp.standard then CopyDirect(inp, acc, proj, secs[1..])
      else if Tuple([proj, s]) !in inp.mdi then (acc, Fail(KeyError))
      else CopyDirect(inp, acc[(proj, s) := inp.mdi[Tuple([proj, s])]], proj, secs[1..])
  }

  /** The second loop: feed down every other secondary. The log message
      looks the secondary up in the decay index first, so one that does not
      decay raises a KeyError. */
  function FeedSecondaries(inp: Inputs, acc: Compact, proj: int, secs: seq<int>, fuel: nat): (Compact, Outcome)
    decreases |secs|
  {
    if secs == [] then (acc, Pass)
    else
      var s := secs[0];
      if s in inp.standard || CharmSkipped(inp, s) then FeedSecondaries(inp, acc, proj, secs[1..], fuel)
      else if s !in inp.decIdx || Tuple([proj, s]) !in inp.mdi then (acc, Fail(KeyError))
      else
        var f := FeedDown(inp, acc, proj, inp.mdi[Tuple([proj, s])], [s], fuel);
        if f.1.Fail? then f else FeedSecondaries(inp, f.0, proj, secs[1..], fuel)
  }

  /** The projectiles `convert_to_compact` processes. */
  const AllowedProjectiles: seq<int> := [2212, 2112, 211, 321, 130, 3122]

  /** The loop over the projectiles `projs` of the production index. */
  function Projectiles(inp: Inputs, acc: Compact, pprod: SecIndex, projs: seq<int>, fuel: nat): (Compact, Outcome)
    requires forall p | p in projs :: p in pprod
    decreases |projs|
  {
    if projs == [] then (acc, Pass)
    else
      var p := projs[0];
      if Abs(p) !in AllowedProjectiles then Projectiles(inp, acc, pprod, projs[1..], fuel)
      else
        var c := CopyDirect(inp, acc, p, pprod[p]);
        if c.1.Fail? then c
        else
          var f := FeedSecondaries(inp, c.0, p, pprod[p], fuel);
          if f.1.Fail? then f else Projectiles(inp, f.0, pprod, projs[1..], fuel)
  }

  /** The projectile loop from position i on, one projectile unrolled. */
  lemma ProjectilesStep(inp: Inputs, acc: Compact, pprod: SecIndex, projs: seq<int>, i: nat, fuel: nat)
    requires forall p | p in projs :: p in pprod
    requires i < |projs|
    ensures var p, rest := projs[i], projs[i + 1..];
      Projectiles(inp, acc, pprod, projs[i..], fuel)
        == if Abs(p) !in AllowedProjectiles then Projectiles(inp, acc, pprod, rest, fuel)
           else
             var c := CopyDirect(inp, acc, p, pprod[p]);
             if c.1.Fail? then c
             else
               var f := FeedSecondaries(inp, c.0, p, pprod[p], fuel);
               if f.1.Fail? then f else Projectiles(inp, f.0, pprod, rest, fuel)
  {
    assert projs[i..][1..] == projs[i + 1..];
  }

  /** `sorted(pprod_di)`: the projectile codes in ascending order. */
  function SortedCodes(s: set<int>): (r: seq<int>)
    ensures forall x :: x in r <==> x in s
    ensures Increasing(r)
  {
    var ks := SortSet(CodeKeys(s));
    assert forall k | k in ks :: k.Code?;
    CodesShape(ks, s);
    Codes(ks)
  }

  function CodeKeys(s: set<int>): set<Key> {
    set x | x in s :: Code(x)
  }

  function Codes(ks: seq<Key>): seq<int>
    requires forall k | k in ks :: k.Code?
  {
    seq(|ks|, i requires 0 <= i < |ks| => ks[i].code)
  }

  lemma CodesShape(ks: seq<Key>, s: set<int>)
    requires Ascending(ks) && forall k :: k in ks <==> k in CodeKeys(s)
    requires forall k | k in ks :: k.Code?
    ensures forall x :: x in Codes(ks) <==> x in s
    ensures Increasing(Codes(ks))
  {
    var r := Codes(ks);
    assert forall k | k in ks :: k.Code? && k.code in s;
    forall x | x in s ensures x in r {
      assert Code(x) in CodeKeys(s);
      var i :| 0 <= i < |ks| && ks[i] == Code(x);
      assert r[i] == x;
    }
    forall i, j | 0 <= i < j < |r| ensures r[i] < r[j] {
      assert ks[i] in ks && ks[j] in ks;
      assert Le(ks[i], ks[j]) && ks[i] != ks[j];
    }
  }

  /** `convert_to_compact` without its file handling and metadata copy:
      index both dictionaries, then run the projectile loop from an empty
      compact dictionary. */
  function Converted(inp: Inputs, fuel: nat): (Compact, Outcome) {
    match SecondaryIndex(inp.mdi)
    case Err(e) => (map[], Fail(e))
    case Ok(pprod) => Projectiles(inp, map[], pprod, SortedCodes(pprod.Keys), fuel)
  }

  /** The state `follow_chained_decay` works on: the inputs and the compact
      dictionary it fills. */
  class Compactor {
    const inputs: Inputs
    var compact: Compact

    constructor(inputs: Inputs)
      ensures this.inputs == inputs && compact == map[]
    {
      this.inputs := inputs;
      compact := map[];
    }

    /** `follow_chained_decay`: feed `mat`, the production of the last
        intermediate, through that particle's decays, adding every product
        that reaches a standard particle. */
    method FollowChainedDecay(realMother: int, mat: Mat, interm: seq<int>, fuel: nat) returns (r: Outcome)
      requires interm != []
      modifies this
      ensures (compact, r) == FeedDown(inputs, old(compact), realMother, mat, interm, fuel)
      decreases fuel
    {
      var last := interm[|interm| - 1];
      if last !in inputs.decIdx || last in inputs.standard {
        return Pass;
      }
      var ds := inputs.decIdx[last];
      var i := 0;
      while i < |ds|
        invariant 0 <= i <= |ds|
        invariant FeedDown(inputs, old(compact), realMother, mat, interm, fuel)
               == FeedChildren(inputs, compact, realMother, mat, interm, ds[i..], fuel)
      {
        var d := ds[i];
        assert ds[i..][1..] == ds[i + 1..];
        if Tuple([last, d]) !in inputs.ddi {
          return Fail(KeyError);
        }
        var mprod := Product(inputs.ddi[Tuple([last, d])], mat);
        if Sum(mprod) < 0.0000000000000000000000000000000000000001 {
          i := i + 1;
          continue;
        }
        if d !in inputs.standard {
          if fuel == 0 {
            return Fail(RecursionDepth);
          }
          var sub := FollowChainedDecay(realMother, mprod, interm + [d], fuel - 1);
          if sub.Fail? {
            return sub;
          }
        } else {
          var key := (realMother, Relabel(d, interm, inputs.ctau));
          if key in compact {
            compact := compact[key := Add(compact[key], mprod)];
          } else {
            compact := compact[key := mprod];
          }
        }
        i := i + 1;
      }
      return Pass;
    }

    /** The first loop over a projectile's secondaries. */
    method CopyStandard(proj: int, secs: seq<int>) returns (r: Outcome)
      modifies this
      ensures (compact, r) == CopyDirect(inputs, old(compact), proj, secs)
    {
      for i := 0 to |secs|
        invariant CopyDirect(inputs, old(compact), proj, secs) == CopyDirect(inputs, compact, proj, secs[i..])
      {
        var sec := secs[i];
        assert secs[i..][1..] == secs[i + 1..];
        if CharmSkipped(inputs, sec) {
          continue;
        }
        if sec in inputs.standard {
          if Tuple([proj, sec]) !in inputs.mdi {
            return Fail(KeyError);
          }
          compact := compact[(proj, sec) := inputs.mdi[Tuple([proj, sec])]];
        }
      }
      return Pass;
    }

    /** The second loop over a projectile's secondaries. */
    method FeedRemaining(proj: int, secs: seq<int>, fuel: nat) returns (r: Outcome)
      modifies this
      ensures (compact, r) == FeedSecondaries(inputs, old(compact), proj, secs, fuel)
    {
      for i := 0 to |secs|
        invariant FeedSecondaries(inputs, old(compact), proj, secs, fuel) == FeedSecondaries(inputs, compact, proj, secs[i..], fuel)
      {
        var sec := secs[i];
        assert secs[i..][1..] == secs[i + 1..];
        if sec in inputs.standard || CharmSkipped(inputs, sec) {
          continue;
        }
        if sec !in inputs.decIdx || Tuple([proj, sec]) !in inputs.mdi {
          return Fail(KeyError);
        }
        var sub := FollowChainedDecay(proj, inputs.mdi[Tuple([proj, sec])], [sec], fuel);
        if sub.Fail? {
          return sub;
        }
      }
      return Pass;
    }

    /** The projectile loop of `convert_to_compact`. */
    method ProjectileLoop(pprod: SecIndex, fuel: nat) returns (r: Outcome)
      modifies this
      ensures (compact, r) == Projectiles(inputs, old(compact), pprod, SortedCodes(pprod.Keys), fuel)
    {
      var projs := SortedCodes(pprod.Keys);
      ghost var goal := Projectiles(inputs, compact, pprod, projs, fuel);
      for i := 0 to |projs|
        invariant goal == Projectiles(inputs, compact, pprod, projs[i..], fuel)
      {
        var proj := projs[i];
        ProjectilesStep(inputs, compact, pprod, projs, i, fuel);
        if Abs(proj) !in AllowedProjectiles {
          continue;
        }
        var c := CopyStandard(proj, pprod[proj]);
        if c.Fail? {
          return c;
        }
        var f := FeedRemaining(proj, pprod[proj], fuel);
        if f.Fail? {
          return f;
        }
      }
      return Pass;
    }
  }

  /** `convert_to_compact` on in-memory dictionaries; the fuel stands for
      the interpreter's recursion limit. */
  method ConvertToCompact(mdi: Yields, ddi: Yields, standard: seq<int>, ctau: int -> real, skipCharm: bool, isCharm: int -> bool, fuel: nat)
      returns (compact: Compact, r: Outcome)
    ensures SecondaryIndex(ddi).Ok?
    ensures (compact, r) == Converted(Inputs(mdi, ddi, SecondaryIndex(ddi).value, standard, ctau, skipCharm, isCharm), fuel)
  {
    SecondaryIndexExact(ddi);
    var pprod := CreateSecondaryDict(mdi);
    var decIdx := CreateSecondaryDict(ddi);
    var inp := Inputs(mdi, ddi, decIdx.value, standard, ctau, skipCharm, isCharm);
    if pprod.Err? {
      return map[], Fail(pprod.error);
    }
    var c := new Compactor(inp);
    r := c.ProjectileLoop(pprod.value, fuel);
    compact := c.compact;
  }

  // Properties

  /** The count of short-lived intermediates is positive exactly when one
      of them lives no longer than the K0S. */
  lemma {:induction false} ShortLivedExists(ctau: int -> real, interm: seq<int>)
    ensures ShortLived(ctau, interm) > 0 <==> exists mo | mo in interm :: ctau(mo) <= ctau(310)
  {
    if interm != [] {
      ShortLivedExists(ctau, interm[1..]);
      assert forall mo | mo in interm :: mo == interm[0] || mo in interm[1..];
    }
  }

  /** A standard daughter changes its label exactly when it is a muon or a
      neutrino and some intermediate of its chain is short-lived; the new
      label keeps the sign and adds 7000 to the magnitude. */
  lemma RelabelExact(d: int, interm: seq<int>, ctau: int -> real)
    ensures Relabel(d, interm, ctau) != d <==>
      Abs(d) in PromptLeptons && exists mo | mo in interm :: ctau(mo) <= ctau(310)
    ensures Relabel(d, interm, ctau) != d ==>
      Abs(Relabel(d, interm, ctau)) == 7000 + Abs(d) && Sign(Relabel(d, interm, ctau)) == Sign(d)
  {
    ShortLivedExists(ctau, interm);
  }

  /** `r` grows `acc` by entries of the given mother only. */
  ghost predicate Extends(acc: Compact, r: Compact, mother: int) {
    && acc.Keys <= r.Keys
    && (forall k | k in r && k !in acc :: k.0 == mother)
    && (forall k | k in acc && k.0 != mother :: r[k] == acc[k])
  }

  lemma ExtendsTransitive(a: Compact, b: Compact, c: Compact, mother: int)
    requires Extends(a, b, mother) && Extends(b, c, mother)
    ensures Extends(a, c, mother)
  {
  }

  /** The feed-down never removes an entry and touches only entries of
      the real mother. */
  lemma {:induction false} FeedDownExtends(inp: Inputs, acc: Compact, mother: int, mat: Mat, interm: seq<int>, fuel: nat)
    requires interm != []
    ensures Extends(acc, FeedDown(inp, acc, mother, mat, interm, fuel).0, mother)
    decreases fuel, 1, 0
  {
    var last := interm[|interm| - 1];
    if last in inp.decIdx && last !in inp.standard {
      FeedChildrenExtends(inp, acc, mother, mat, interm, inp.decIdx[last], fuel);
    }
  }

  lemma {:induction false} FeedChildrenExtends(inp: Inputs, acc: Compact, mother: int, mat: Mat, interm: seq<int>, ds: seq<int>, fuel: nat)
    requires interm != []
    ensures Extends(acc, FeedChildren(inp, acc, mother, mat, interm, ds, fuel).0, mother)
    decreases fuel, 0, |ds|
  {
    if ds != [] {
      var last, d := interm[|interm| - 1], ds[0];
      if Tuple([last, d]) in inp.ddi {
        var mprod := Product(inp.ddi[Tuple([last, d])], mat);
        var rest := FeedChildren(inp, acc, mother, mat, interm, ds, fuel).0;
        if Sum(mprod) < 0.0000000000000000000000000000000000000001 {
          FeedChildrenExtends(inp, acc, mother, mat, interm, ds[1..], fuel);
        } else if d !in inp.standard {
          if fuel > 0 {
            var sub := FeedDown(inp, acc, mother, mprod, interm + [d], fuel - 1);
            FeedDownExtends(inp, acc, mother, mprod, interm + [d], fuel - 1);
            if sub.1.Pass? {
              FeedChildrenExtends(inp, sub.0, mother, mat, interm, ds[1..], fuel);
              ExtendsTransitive(acc, sub.0, rest, mother);
            }
          }
        } else {
          var acc2 := Contribute(acc, (mother, Relabel(d, interm, inp.ctau)), mprod);
          FeedChildrenExtends(inp, acc2, mother, mat, interm, ds[1..], fuel);
          ExtendsTransitive(acc, acc2, rest, mother);
        }
      }
    }
  }

  /** Daughters whose products all fall below the cut contribute nothing. */
  lemma {:induction false} NegligibleProductsSkipped(inp: Inputs, acc: Compact, mother: int, mat: Mat, interm: seq<int>, ds: seq<int>, fuel: nat)
    requires interm != []
    requires forall d | d in ds ::
      && Tuple([interm[|interm| - 1], d]) in inp.ddi
      && Sum(Product(inp.ddi[Tuple([interm[|interm| - 1], d])], mat)) < 0.0000000000000000000000000000000000000001
    ensures FeedChildren(inp, acc, mother, mat, interm, ds, fuel) == (acc, Pass)
  {
    if ds != [] {
      assert ds[0] in ds;
      assert forall d | d in ds[1..] :: d in ds;
      NegligibleProductsSkipped(inp, acc, mother, mat, interm, ds[1..], fuel);
    }
  }

  /** Copying only adds entries of the projectile, and on success every
      standard secondary that is not skipped has its entry. */
  lemma {:induction false} CopyDirectShape(inp: Inputs, acc: Compact, proj: int, secs: seq<int>)
    ensures Extends(acc, CopyDirect(inp, acc, proj, secs).0, proj)
    ensures CopyDirect(inp, acc, proj, secs).1.Pass? ==>
      forall s | s in secs && s in inp.standard && !CharmSkipped(inp, s) :: (proj, s) in CopyDirect(inp, acc, proj, secs).0
    decreases |secs|
  {
    if secs != [] {
      var s := secs[0];
      var r := CopyDirect(inp, acc, proj, secs);
      assert forall x | x in secs :: x == s || x in secs[1..];
      if CharmSkipped(inp, s) || s !in inp.standard {
        CopyDirectShape(inp, acc, proj, secs[1..]);
      } else if Tuple([proj, s]) in inp.mdi {
        var acc2 := acc[(proj, s) := inp.mdi[Tuple([proj, s])]];
        CopyDirectShape(inp, acc2, proj, secs[1..]);
        ExtendsTransitive(acc, acc2, r.0, proj);
      }
    }
  }

  lemma {:induction false} FeedSecondariesExtends(inp: Inputs, acc: Compact, proj: int, secs: seq<int>, fuel: nat)
    ensures Extends(acc, FeedSecondaries(inp, acc, proj, secs, fuel).0, proj)
    decreases |secs|
  {
    if secs != [] {
      var s := secs[0];
      if s in inp.standard || CharmSkipped(inp, s) {
        FeedSecondariesExtends(inp, acc, proj, secs[1..], fuel);
      } else if s in inp.decIdx && Tuple([proj, s]) in inp.mdi {
        var f := FeedDown(inp, acc, proj, inp.mdi[Tuple([proj, s])], [s], fuel);
        FeedDownExtends(inp, acc, proj, inp.mdi[Tuple([proj, s])], [s], fuel);
        if f.1.Pass? {
          FeedSecondariesExtends(inp, f.0, proj, secs[1..], fuel);
          ExtendsTransitive(acc, f.0, FeedSecondaries(inp, acc, proj, secs, fuel).0, proj);
        }
      }
    }
  }

  /** A non-standard secondary without decays aborts the second loop. */
  lemma {:induction false} UndecayedSecondaryAbortsFeed(inp: Inputs, acc: Compact, proj: int, secs: seq<int>, fuel: nat, s: int)
    requires s in secs && s !in inp.standard && !CharmSkipped(inp, s) && s !in inp.decIdx
    ensures FeedSecondaries(inp, acc, proj, secs, fuel).1.Fail?
    decreases |secs|
  {
    if secs[0] != s {
      var x := secs[0];
      assert s in secs[1..];
      if x in inp.standard || CharmSkipped(inp, x) {
        UndecayedSecondaryAbortsFeed(inp, acc, proj, secs[1..], fuel, s);
      } else if x in inp.decIdx && Tuple([proj, x]) in inp.mdi {
        var f := FeedDown(inp, acc, proj, inp.mdi[Tuple([proj, x])], [x], fuel);
        if f.1.Pass? {
          UndecayedSecondaryAbortsFeed(inp, f.0, proj, secs[1..], fuel, s);
        }
      }
    }
  }

  /** The projectile loop only adds entries of allowed projectiles it
      visits, and on success each visited allowed projectile has an entry
      for every standard secondary that is not skipped. */
  lemma {:induction false} ProjectilesShape(inp: Inputs, acc: Compact, pprod: SecIndex, projs: seq<int>, fuel: nat)
    requires forall p | p in projs :: p in pprod
    ensures var r := Projectiles(inp, acc, pprod, projs, fuel);
      && acc.Keys <= r.0.Keys
      && (forall k | k in r.0 && k !in acc :: k.0 in projs && Abs(k.0) in AllowedProjectiles)
      && (r.1.Pass? ==> forall p, s | p in projs && Abs(p) in AllowedProjectiles && s in pprod[p] && s in inp.standard && !CharmSkipped(inp, s) :: (p, s) in r.0)
    decreases |projs|
  {
    if projs != [] {
      var p := projs[0];
      var r := Projectiles(inp, acc, pprod, projs, fuel);
      assert forall x | x in projs :: x == p || x in projs[1..];
      assert forall x | x in projs[1..] :: x in projs;
      if Abs(p) !in AllowedProjectiles {
        ProjectilesShape(inp, acc, pprod, projs[1..], fuel);
      } else {
        var c := CopyDirect(inp, acc, p, pprod[p]);
        CopyDirectShape(inp, acc, p, pprod[p]);
        if c.1.Pass? {
          var f := FeedSecondaries(inp, c.0, p, pprod[p], fuel);
          FeedSecondariesExtends(inp, c.0, p, pprod[p], fuel);
          if f.1.Pass? {
            ProjectilesShape(inp, f.0, pprod, projs[1..], fuel);
          }
        }
      }
    }
  }

  /** The projectile loop fails when a visited allowed projectile has a
      non-standard, non-skipped secondary without decays. */
  lemma {:induction false} UndecayedSecondaryAbortsLoop(inp: Inputs, acc: Compact, pprod: SecIndex, projs: seq<int>, fuel: nat, p: int, s: int)
    requires forall p | p in projs :: p in pprod
    requires p in projs && Abs(p) in AllowedProjectiles
    requires s in pprod[p] && s !in inp.standard && !CharmSkipped(inp, s) && s !in inp.decIdx
    ensures Projectiles(inp, acc, pprod, projs, fuel).1.Fail?
    decreases |projs|
  {
    var x := projs[0];
    assert forall y | y in projs[1..] :: y in projs;
    if Abs(x) in AllowedProjectiles {
      var c := CopyDirect(inp, acc, x, pprod[x]);
      if c.1.Pass? {
        if x == p {
          UndecayedSecondaryAbortsFeed(inp, c.0, x, pprod[x], fuel, s);
        } else {
          var f := FeedSecondaries(inp, c.0, x, pprod[x], fuel);
          if f.1.Pass? {
            UndecayedSecondaryAbortsLoop(inp, f.0, pprod, projs[1..], fuel, p, s);
          }
        }
      }
    } else {
      UndecayedSecondaryAbortsLoop(inp, acc, pprod, projs[1..], fuel, p, s);
    }
  }

  /** The compact dictionary holds entries of allowed projectiles of the
      yields only; after a successful conversion every allowed projectile
      has the entries of its standard, non-skipped secondaries with a
      positive matrix sum. */
  lemma ConvertedShape(inp: Inputs, fuel: nat)
    ensures var r := Converted(inp, fuel);
      && (forall k | k in r.0 :: Abs(k.0) in AllowedProjectiles && exists s :: Tuple([k.0, s]) in inp.mdi)
      && (r.1.Pass? ==> forall p, s | Abs(p) in AllowedProjectiles && s in inp.standard && !CharmSkipped(inp, s)
            && Tuple([p, s]) in inp.mdi && Sum(inp.mdi[Tuple([p, s])]) > 0.0 :: (p, s) in r.0)
  {
    SecondaryIndexExact(inp.mdi);
    var pprod := SecondaryIndex(inp.mdi).value;
    ProjectilesShape(inp, map[], pprod, SortedCodes(pprod.Keys), fuel);
  }

  /** A secondary of an allowed projectile that is neither standard nor
      skipped and has no decay table makes the whole conversion fail with
      the lookup of the log message, instead of being dropped. */
  lemma UndecayedSecondaryAborts(inp: Inputs, fuel: nat, p: int, s: int)
    requires Abs(p) in AllowedProjectiles && Tuple([p, s]) in inp.mdi && Sum(inp.mdi[Tuple([p, s])]) > 0.0
    requires s !in inp.standard && !CharmSkipped(inp, s) && s !in inp.decIdx
    ensures Converted(inp, fuel).1.Fail?
  {
    SecondaryIndexExact(inp.mdi);
    var pprod := SecondaryIndex(inp.mdi).value;
    UndecayedSecondaryAbortsLoop(inp, map[], pprod, SortedCodes(pprod.Keys), fuel, p, s);
  }

  // The values of the compact dictionary

  /** One contribution of the feed-down: the compact key and the product
      matrix added under it. */
  type Contribution = ((int, int), Mat)

  /** The entry of a key, if there is one. */
  function Get(c: Compact, k: (int, int)): Option<Mat> {
    if k in c then Some(c[k]) else None
  }

  /** The contributions made one after the other, each by `Contribute`. */
  function ContributeAll(acc: Compact, cs: seq<Contribution>): Compact
    decreases |cs|
  {
    if cs == [] then acc else ContributeAll(Contribute(acc, cs[0].0, cs[0].1), cs[1..])
  }

  /** The matrices contributed under key `k`, in order. */
  function Matching(cs: seq<Contribution>, k: (int, int)): seq<Mat>
    decreases |cs|
  {
    if cs == [] then [] else (if cs[0].0 == k then [cs[0].1] else []) + Matching(cs[1..], k)
  }

  /** An entry that starts as `start` (or absent) and receives the matrices
      `ms`: the first one creates it, every later one is added to it. */
  function Accumulated(start: Option<Mat>, ms: seq<Mat>): Option<Mat>
    decreases |ms|
  {
    if ms == [] then start
    else Accumulated(Some(if start.Some? then Add(start.value, ms[0]) else ms[0]), ms[1..])
  }

  /** The contributions `follow_chained_decay` makes, in order, and how it
      ends; the same walk as `FeedDown`, with no dictionary. */
  function Chain(inp: Inputs, mother: int, mat: Mat, interm: seq<int>, fuel: nat): (seq<Contribution>, Outcome)
    requires interm != []
    decreases fuel, 1, 0
  {
    var last := interm[|interm| - 1];
    if last !in inp.decIdx || last in inp.standard then ([], Pass)
    else ChainChildren(inp, mother, mat, interm, inp.decIdx[last], fuel)
  }

  function ChainChildren(inp: Inputs, mother: int, mat: Mat, interm: seq<int>, ds: seq<int>, fuel: nat): (seq<Contribution>, Outcome)
    requires interm != []
    decreases fuel, 0, |ds|
  {
    if ds == [] then ([], Pass)
    else
      var last, d := interm[|interm| - 1], ds[0];
      if Tuple([last, d]) !in inp.ddi then ([], Fail(KeyError))
      else
        var mprod := Product(inp.ddi[Tuple([last, d])], mat);
        if Sum(mprod) < 0.0000000000000000000000000000000000000001 then
          ChainChildren(inp, mother, mat, interm, ds[1..], fuel)
        else if d !in inp.standard then
          if fuel == 0 then ([], Fail(RecursionDepth))
          else
            var sub := Chain(inp, mother, mprod, interm + [d], fuel - 1);
            if sub.1.Fail? then sub
            else
              var rest := ChainChildren(inp, mother, mat, interm, ds[1..], fuel);
              (sub.0 + rest.0, rest.1)
        else
          var rest := ChainChildren(inp, mother, mat, interm, ds[1..], fuel);
          ([((mother, Relabel(d, interm, inp.ctau)), mprod)] + rest.0, rest.1)
  }

  /** The contributions of the second loop over a projectile's
      secondaries. */
  function SecondariesChain(inp: Inputs, proj: int, secs: seq<int>, fuel: nat): (seq<Contribution>, Outcome)
    decreases |secs|
  {
    if secs == [] then ([], Pass)
    else
      var s := secs[0];
      if s in inp.standard || CharmSkipped(inp, s) then SecondariesChain(inp, proj, secs[1..], fuel)
      else if s !in inp.decIdx || Tuple([proj, s]) !in inp.mdi then ([], Fail(KeyError))
      else
        var f := Chain(inp, proj, inp.mdi[Tuple([proj, s])], [s], fuel);
        if f.1.Fail? then f
        else
          var rest := SecondariesChain(inp, proj, secs[1..], fuel);
          (f.0 + rest.0, rest.1)
  }

  lemma {:induction false} ContributeAllAppend(acc: Compact, a: seq<Contribution>, b: seq<Contribution>)
    ensures ContributeAll(acc, a + b) == ContributeAll(ContributeAll(acc, a), b)
    decreases |a|
  {
    if a == [] {
      assert a + b == b;
    } else {
      assert (a + b)[0] == a[0] && (a + b)[1..] == a[1..] + b;
      ContributeAllAppend(Contribute(acc, a[0].0, a[0].1), a[1..], b);
    }
  }

  /** Every entry after the contributions is the entry before them with the
      matrices of its key accumulated in order: the first contribution to
      an absent key creates the entry, every other one is added to it, and
      keys nobody contributes to keep their entry. */
  lemma {:induction false} ContributeAllValue(acc: Compact, cs: seq<Contribution>, k: (int, int))
    ensures Get(ContributeAll(acc, cs), k) == Accumulated(Get(acc, k), Matching(cs, k))
    decreases |cs|
  {
    if cs != [] {
      var acc2 := Contribute(acc, cs[0].0, cs[0].1);
      ContributeAllValue(acc2, cs[1..], k);
      if cs[0].0 == k {
        assert Matching(cs, k) == [cs[0].1] + Matching(cs[1..], k);
        assert Matching(cs, k)[1..] == Matching(cs[1..], k);
      } else {
        assert Matching(cs, k) == Matching(cs[1..], k);
        assert Get(acc2, k) == Get(acc, k);
      }
    }
  }

  /** `FeedDown` adds exactly the contributions of `Chain` to the dictionary
      it is given, and ends the same way. */
  lemma {:induction false} FeedDownIsChain(inp: Inputs, acc: Compact, mother: int, mat: Mat, interm: seq<int>, fuel: nat)
    requires interm != []
    ensures var c := Chain(inp, mother, mat, interm, fuel);
      FeedDown(inp, acc, mother, mat, interm, fuel) == (ContributeAll(acc, c.0), c.1)
    decreases fuel, 1, 0
  {
    var last := interm[|interm| - 1];
    if last in inp.decIdx && last !in inp.standard {
      FeedChildrenIsChain(inp, acc, mother, mat, interm, inp.decIdx[last], fuel);
    }
  }

  lemma {:induction false} FeedChildrenIsChain(inp: Inputs, acc: Compact, mother: int, mat: Mat, interm: seq<int>, ds: seq<int>, fuel: nat)
    requires interm != []
    ensures var c := ChainChildren(inp, mother, mat, interm, ds, fuel);
      FeedChildren(inp, acc, mother, mat, interm, ds, fuel) == (ContributeAll(acc, c.0), c.1)
    decreases fuel, 0, |ds|
  {
    if ds != [] {
      var last, d := interm[|interm| - 1], ds[0];
      if Tuple([last, d]) in inp.ddi {
        var mprod := Product(inp.ddi[Tuple([last, d])], mat);
        if Sum(mprod) < 0.0000000000000000000000000000000000000001 {
          FeedChildrenIsChain(inp, acc, mother, mat, interm, ds[1..], fuel);
        } else if d !in inp.standard {
          if fuel > 0 {
            var sub := Chain(inp, mother, mprod, interm + [d], fuel - 1);
            FeedDownIsChain(inp, acc, mother, mprod, interm + [d], fuel - 1);
            if sub.1.Pass? {
              var acc2 := ContributeAll(acc, sub.0);
              var rest := ChainChildren(inp, mother, mat, interm, ds[1..], fuel);
              FeedChildrenIsChain(inp, acc2, mother, mat, interm, ds[1..], fuel);
              ContributeAllAppend(acc, sub.0, rest.0);
            }
          }
        } else {
          var c := ((mother, Relabel(d, interm, inp.ctau)), mprod);
          var rest := ChainChildren(inp, mother, mat, interm, ds[1..], fuel);
          FeedChildrenIsChain(inp, Contribute(acc, c.0, c.1), mother, mat, interm, ds[1..], fuel);
          assert ([c] + rest.0)[0] == c && ([c] + rest.0)[1..] == rest.0;
        }
      }
    }
  }

  /** The code a standard daughter is entered under: itself, or for a
      muon or neutrino its prompt code. */
  predicate EnteredAs(inp: Inputs, x: int) {
    x in inp.standard || (Abs(x) > 7000 && Abs(x) - 7000 in PromptLeptons && Sign(x) * (Abs(x) - 7000) in inp.standard)
  }

  /** Every contribution of the feed-down is a product above the cut, filed
      under the real mother and a standard daughter or its prompt code. */
  ghost predicate FromMother(cs: seq<Contribution>, inp: Inputs, mother: int) {
    forall i | 0 <= i < |cs| ::
      cs[i].0.0 == mother && EnteredAs(inp, cs[i].0.1) && Sum(cs[i].1) >= 0.0000000000000000000000000000000000000001
  }

  lemma FromMotherAppend(a: seq<Contribution>, b: seq<Contribution>, inp: Inputs, mother: int)
    requires FromMother(a, inp, mother) && FromMother(b, inp, mother)
    ensures FromMother(a + b, inp, mother)
  {
    forall i | 0 <= i < |a + b| ensures (a + b)[i] == if i < |a| then a[i] else b[i - |a|] { }
  }

  lemma RelabelEntered(inp: Inputs, d: int, interm: seq<int>)
    requires d in inp.standard
    ensures EnteredAs(inp, Relabel(d, interm, inp.ctau))
  {
    var x := Relabel(d, interm, inp.ctau);
    if x != d {
      assert Abs(x) == 7000 + Abs(d) && Abs(x) - 7000 == Abs(d);
      assert Sign(x) == Sign(d);
      assert Sign(d) * Abs(d) == d;
    }
  }

  lemma {:induction false} ChainFromMother(inp: Inputs, mother: int, mat: Mat, interm: seq<int>, fuel: nat)
    requires interm != []
    ensures FromMother(Chain(inp, mother, mat, interm, fuel).0, inp, mother)
    decreases fuel, 1, 0
  {
    var last := interm[|interm| - 1];
    if last in inp.decIdx && last !in inp.standard {
      ChainChildrenFromMother(inp, mother, mat, interm, inp.decIdx[last], fuel);
    }
  }

  lemma {:induction false} ChainChildrenFromMother(inp: Inputs, mother: int, mat: Mat, interm: seq<int>, ds: seq<int>, fuel: nat)
    requires interm != []
    ensures FromMother(ChainChildren(inp, mother, mat, interm, ds, fuel).0, inp, mother)
    decreases fuel, 0, |ds|
  {
    if ds != [] {
      var last, d := interm[|interm| - 1], ds[0];
      if Tuple([last, d]) in inp.ddi {
        var mprod := Product(inp.ddi[Tuple([last, d])], mat);
        var rest := ChainChildren(inp, mother, mat, interm, ds[1..], fuel);
        if Sum(mprod) < 0.0000000000000000000000000000000000000001 {
          ChainChildrenFromMother(inp, mother, mat, interm, ds[1..], fuel);
        } else if d !in inp.standard {
          if fuel > 0 {
            ChainFromMother(inp, mother, mprod, interm + [d], fuel - 1);
            ChainChildrenFromMother(inp, mother, mat, interm, ds[1..], fuel);
            FromMotherAppend(Chain(inp, mother, mprod, interm + [d], fuel - 1).0, rest.0, inp, mother);
          }
        } else {
          ChainChildrenFromMother(inp, mother, mat, interm, ds[1..], fuel);
          RelabelEntered(inp, d, interm);
          FromMotherAppend([((mother, Relabel(d, interm, inp.ctau)), mprod)], rest.0, inp, mother);
        }
      }
    }
  }

  /** A standard daughter of the last intermediate whose product with the
      incoming matrix passes the cut is contributed, as that product, under
      the real mother and the daughter's (possibly prompt) code, whenever
      the feed-down completes. */
  lemma {:induction false} StandardDaughterContributes(inp: Inputs, mother: int, mat: Mat, interm: seq<int>, ds: seq<int>, fuel: nat, d: int)
    requires interm != [] && d in ds && d in inp.standard
    requires Tuple([interm[|interm| - 1], d]) in inp.ddi
    requires Sum(Product(inp.ddi[Tuple([interm[|interm| - 1], d])], mat)) >= 0.0000000000000000000000000000000000000001
    requires ChainChildren(inp, mother, mat, interm, ds, fuel).1.Pass?
    ensures ((mother, Relabel(d, interm, inp.ctau)), Product(inp.ddi[Tuple([interm[|interm| - 1], d])], mat))
      in ChainChildren(inp, mother, mat, interm, ds, fuel).0
    decreases |ds|
  {
    var last, x := interm[|interm| - 1], ds[0];
    var mprod := Product(inp.ddi[Tuple([last, x])], mat);
    var rest := ChainChildren(inp, mother, mat, interm, ds[1..], fuel);
    if x != d {
      assert d in ds[1..];
      if Sum(mprod) < 0.0000000000000000000000000000000000000001 {
        StandardDaughterContributes(inp, mother, mat, interm, ds[1..], fuel, d);
      } else if x !in inp.standard {
        StandardDaughterContributes(inp, mother, mat, interm, ds[1..], fuel, d);
        assert forall c | c in rest.0 :: c in Chain(inp, mother, mprod, interm + [x], fuel - 1).0 + rest.0;
      } else {
        StandardDaughterContributes(inp, mother, mat, interm, ds[1..], fuel, d);
        assert forall c | c in rest.0 :: c in [((mother, Relabel(x, interm, inp.ctau)), mprod)] + rest.0;
      }
    }
  }

  /** `FeedSecondaries` adds exactly the contributions of
      `SecondariesChain`, and ends the same way. */
  lemma {:induction false} FeedSecondariesIsChain(inp: Inputs, acc: Compact, proj: int, secs: seq<int>, fuel: nat)
    ensures var c := SecondariesChain(inp, proj, secs, fuel);
      FeedSecondaries(inp, acc, proj, secs, fuel) == (ContributeAll(acc, c.0), c.1)
    ensures FromMother(SecondariesChain(inp, proj, secs, fuel).0, inp, proj)
    decreases |secs|
  {
    if secs != [] {
      var s := secs[0];
      if s in inp.standard || CharmSkipped(inp, s) {
        FeedSecondariesIsChain(inp, acc, proj, secs[1..], fuel);
      } else if s in inp.decIdx && Tuple([proj, s]) in inp.mdi {
        var m := inp.mdi[Tuple([proj, s])];
        var f := Chain(inp, proj, m, [s], fuel);
        FeedDownIsChain(inp, acc, proj, m, [s], fuel);
        ChainFromMother(inp, proj, m, [s], fuel);
        if f.1.Pass? {
          var rest := SecondariesChain(inp, proj, secs[1..], fuel);
          FeedSecondariesIsChain(inp, ContributeAll(acc, f.0), proj, secs[1..], fuel);
          ContributeAllAppend(acc, f.0, rest.0);
          FromMotherAppend(f.0, rest.0, inp, proj);
        }
      }
    }
  }

  /** The first loop copies the yield matrix of every standard secondary
      that is not skipped, overwriting any entry it had, and leaves every
      other key alone; whether it raises does not depend on the
      dictionary. */
  lemma {:induction false} CopyDirectValues(inp: Inputs, acc: Compact, proj: int, secs: seq<int>, k: (int, int))
    ensures var c := CopyDirect(inp, acc, proj, secs);
      && c.1 == CopyDirect(inp, map[], proj, secs).1
      && (c.1.Pass? && k.0 == proj && k.1 in secs && k.1 in inp.standard && !CharmSkipped(inp, k.1) ==>
            Tuple([proj, k.1]) in inp.mdi && Get(c.0, k) == Some(inp.mdi[Tuple([proj, k.1])]))
      && (!(k.0 == proj && k.1 in secs && k.1 in inp.standard && !CharmSkipped(inp, k.1)) ==> Get(c.0, k) == Get(acc, k))
    decreases |secs|
  {
    if secs != [] {
      var s := secs[0];
      assert forall x | x in secs :: x == s || x in secs[1..];
      if CharmSkipped(inp, s) || s !in inp.standard {
        CopyDirectValues(inp, acc, proj, secs[1..], k);
        CopyDirectValues(inp, map[], proj, secs[1..], k);
      } else if Tuple([proj, s]) in inp.mdi {
        var acc2 := acc[(proj, s) := inp.mdi[Tuple([proj, s])]];
        CopyDirectValues(inp, acc2, proj, secs[1..], k);
        CopyDirectValues(inp, map[(proj, s) := inp.mdi[Tuple([proj, s])]], proj, secs[1..], k);
      }
    }
  }

  lemma ExtendsElsewhere(a: Compact, b: Compact, mother: int, k: (int, int))
    requires Extends(a, b, mother) && k.0 != mother
    ensures Get(b, k) == Get(a, k)
  {
  }

  /** The projectile loop leaves the entries of projectiles it does not
      visit as they are. */
  lemma {:induction false} ProjectilesKeep(inp: Inputs, acc: Compact, pprod: SecIndex, projs: seq<int>, fuel: nat, k: (int, int))
    requires forall p | p in projs :: p in pprod
    requires k.0 !in projs
    ensures Get(Projectiles(inp, acc, pprod, projs, fuel).0, k) == Get(acc, k)
    decreases |projs|
  {
    if projs != [] {
      var p := projs[0];
      assert forall x | x in projs[1..] :: x in projs;
      if Abs(p) !in AllowedProjectiles {
        ProjectilesKeep(inp, acc, pprod, projs[1..], fuel, k);
      } else {
        var c := CopyDirect(inp, acc, p, pprod[p]);
        CopyDirectShape(inp, acc, p, pprod[p]);
        ExtendsElsewhere(acc, c.0, p, k);
        if c.1.Pass? {
          var f := FeedSecondaries(inp, c.0, p, pprod[p], fuel);
          FeedSecondariesExtends(inp, c.0, p, pprod[p], fuel);
          ExtendsElsewhere(c.0, f.0, p, k);
          if f.1.Pass? {
            ProjectilesKeep(inp, f.0, pprod, projs[1..], fuel, k);
          }
        }
      }
    }
  }

  /** The entries of one projectile after its two loops, from a dictionary
      that held none of its entries: the copies of the first loop, with the
      feed-down contributions of the second accumulated onto them. */
  lemma OneProjectileValues(inp: Inputs, acc: Compact, p: int, secs: seq<int>, fuel: nat, x: int)
    requires Get(acc, (p, x)) == None
    requires CopyDirect(inp, acc, p, secs).1.Pass?
    ensures var c := CopyDirect(inp, acc, p, secs);
      Get(FeedSecondaries(inp, c.0, p, secs, fuel).0, (p, x))
        == Accumulated(Get(CopyDirect(inp, map[], p, secs).0, (p, x)), Matching(SecondariesChain(inp, p, secs, fuel).0, (p, x)))
  {
    var c := CopyDirect(inp, acc, p, secs);
    CopyDirectValues(inp, acc, p, secs, (p, x));
    CopyDirectValues(inp, map[], p, secs, (p, x));
    FeedSecondariesIsChain(inp, c.0, p, secs, fuel);
    ContributeAllValue(c.0, SecondariesChain(inp, p, secs, fuel).0, (p, x));
  }

  lemma {:induction false} ProjectilesValues(inp: Inputs, acc: Compact, pprod: SecIndex, projs: seq<int>, fuel: nat, p: int, x: int)
    requires forall q | q in projs :: q in pprod
    requires Increasing(projs) && p in projs && Abs(p) in AllowedProjectiles
    requires Get(acc, (p, x)) == None
    requires Projectiles(inp, acc, pprod, projs, fuel).1.Pass?
    ensures Get(Projectiles(inp, acc, pprod, projs, fuel).0, (p, x))
      == Accumulated(Get(CopyDirect(inp, map[], p, pprod[p]).0, (p, x)), Matching(SecondariesChain(inp, p, pprod[p], fuel).0, (p, x)))
    decreases |projs|
  {
    var q := projs[0];
    assert forall y | y in projs[1..] :: y in projs;
    assert Increasing(projs[1..]);
    if q == p {
      assert p !in projs[1..];
      var c := CopyDirect(inp, acc, p, pprod[p]);
      var f := FeedSecondaries(inp, c.0, p, pprod[p], fuel);
      OneProjectileValues(inp, acc, p, pprod[p], fuel, x);
      ProjectilesKeep(inp, f.0, pprod, projs[1..], fuel, (p, x));
    } else {
      assert p in projs[1..];
      if Abs(q) !in AllowedProjectiles {
        ProjectilesValues(inp, acc, pprod, projs[1..], fuel, p, x);
      } else {
        var c := CopyDirect(inp, acc, q, pprod[q]);
        var f := FeedSecondaries(inp, c.0, q, pprod[q], fuel);
        CopyDirectShape(inp, acc, q, pprod[q]);
        FeedSecondariesExtends(inp, c.0, q, pprod[q], fuel);
        ExtendsElsewhere(acc, c.0, q, (p, x));
        ExtendsElsewhere(c.0, f.0, q, (p, x));
        ProjectilesValues(inp, f.0, pprod, projs[1..], fuel, p, x);
      }
    }
  }

  /** After a successful conversion, every entry of an allowed projectile
      is its copy from the first loop (if any) with the feed-down
      contributions of the second loop accumulated onto it, in order. */
  lemma ConvertedValues(inp: Inputs, fuel: nat, p: int, x: int)
    requires Abs(p) in AllowedProjectiles && Converted(inp, fuel).1.Pass?
    ensures SecondaryIndex(inp.mdi).Ok?
    ensures var pprod := SecondaryIndex(inp.mdi).value;
      var secs := if p in pprod then pprod[p] else [];
      Get(Converted(inp, fuel).0, (p, x))
        == Accumulated(Get(CopyDirect(inp, map[], p, secs).0, (p, x)), Matching(SecondariesChain(inp, p, secs, fuel).0, (p, x)))
  {
    SecondaryIndexExact(inp.mdi);
    var pprod := SecondaryIndex(inp.mdi).value;
    var projs := SortedCodes(pprod.Keys);
    assert Converted(inp, fuel) == Projectiles(inp, map[], pprod, projs, fuel);
    if p in pprod {
      ProjectilesValues(inp, map[], pprod, projs, fuel, p, x);
    } else {
      ProjectilesKeep(inp, map[], pprod, projs, fuel, (p, x));
    }
  }

  /** A projectile loop that completes completed the first loop of every
      allowed projectile it visits. */
  lemma {:induction false} ProjectilesStepPass(inp: Inputs, pprod: SecIndex, projs: seq<int>, fuel: nat, p: int)
    requires forall q | q in projs :: q in pprod
    requires p in projs && Abs(p) in AllowedProjectiles
    ensures forall acc: Compact :: Projectiles(inp, acc, pprod, projs, fuel).1.Pass? ==> CopyDirect(inp, map[], p, pprod[p]).1.Pass?
    decreases |projs|
  {
    var q := projs[0];
    assert forall y | y in projs[1..] :: y in projs;
    forall acc: Compact | Projectiles(inp, acc, pprod, projs, fuel).1.Pass?
      ensures CopyDirect(inp, map[], p, pprod[p]).1.Pass?
    {
      assert p in projs[1..] || q == p;
      assert projs[0..] == projs && projs[1..] == projs[0 + 1..];
      ProjectilesStep(inp, acc, pprod, projs, 0, fuel);
      if Abs(q) !in AllowedProjectiles {
        ProjectilesStepPass(inp, pprod, projs[1..], fuel, p);
      } else {
        var c := CopyDirect(inp, acc, q, pprod[q]);
        CopyDirectValues(inp, acc, q, pprod[q], (q, 0));
        if q != p {
          var f := FeedSecondaries(inp, c.0, q, pprod[q], fuel);
          assert Projectiles(inp, f.0, pprod, projs[1..], fuel).1.Pass?;
          ProjectilesStepPass(inp, pprod, projs[1..], fuel, p);
        }
      }
    }
  }

  /** A standard, non-skipped secondary with a positive yield starts from
      its own yield matrix (the copy of the first loop), and the feed-down
      of the second loop is added to it, never written over it. */
  lemma CopiedThenFed(inp: Inputs, fuel: nat, p: int, x: int)
    requires Abs(p) in AllowedProjectiles && Converted(inp, fuel).1.Pass?
    requires x in inp.standard && !CharmSkipped(inp, x) && Tuple([p, x]) in inp.mdi && Sum(inp.mdi[Tuple([p, x])]) > 0.0
    ensures SecondaryIndex(inp.mdi).Ok? && p in SecondaryIndex(inp.mdi).value
    ensures var pprod := SecondaryIndex(inp.mdi).value;
      Get(Converted(inp, fuel).0, (p, x)) == Accumulated(Some(inp.mdi[Tuple([p, x])]), Matching(SecondariesChain(inp, p, pprod[p], fuel).0, (p, x)))
  {
    SecondaryIndexExact(inp.mdi);
    var pprod := SecondaryIndex(inp.mdi).value;
    assert p in pprod && x in pprod[p];
    ConvertedValues(inp, fuel, p, x);
    var c := CopyDirect(inp, map[], p, pprod[p]);
    var projs := SortedCodes(pprod.Keys);
    assert Converted(inp, fuel) == Projectiles(inp, map[], pprod, projs, fuel);
    ProjectilesStepPass(inp, pprod, projs, fuel, p);
    CopyDirectValues(inp, map[], p, pprod[p], (p, x));
  }
}
