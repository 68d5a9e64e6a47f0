/** List and dictionary passes shared by the interaction and decay tables:
    the parent filters, the regeneration of relations and particles after
    filtering, the direct-lepton strip and the regrouping of a channel index
    into relation lists. */
module Tables {
  import opened Wrappers
  import opened Pdg
  import opened Matrices

  /** The state a channel table keeps once loaded: the active parents, the
      known particles, the relation lists and the matrices by channel. */
  datatype Graph = Graph(
    parents: seq<Key>,
    particles: seq<Key>,
    relations: map<Key, seq<Key>>,
    indexD: map<Channel, Mat>,
    description: Option<string>)

  /** Every relation of the graph has a matrix. */
  predicate Consistent(relations: map<Key, seq<Key>>, indexD: map<Channel, Mat>) {
    forall p, c | p in relations && c in relations[p] :: (p, c) in indexD
  }

  /** `[p for p in ps if keep(p)]` */
  function Where(ps: seq<Key>, keep: Key -> bool): (r: seq<Key>)
    ensures forall k :: k in r <==> k in ps && keep(k)
    ensures |r| <= |ps|
  {
    if ps == [] then []
    else if keep(ps[0]) then [ps[0]] + Where(ps[1..], keep)
    else Where(ps[1..], keep)
  }

  /** `[p for p in ps if keep(p[0])]`: indexing a bare integer raises, so the
      comprehension fails as soon as it meets one. */
  function WhereCode(ps: seq<Key>, keep: int -> bool): (r: Result<seq<Key>>)
    ensures r.Ok? <==> forall k | k in ps :: k.Pair?
    ensures r.Err? ==> r.error == TypeError
    ensures r.Ok? ==> forall k :: k in r.value <==> k in ps && k.Pair? && keep(k.pdg)
    ensures r.Ok? ==> |r.value| <= |ps|
  {
    if ps == [] then Ok([])
    else if ps[0].Code? then assert ps[0] in ps; Err(TypeError)
    else
      var rest :- WhereCode(ps[1..], keep);
      assert forall k | k in ps[1..] :: k in ps;
      Ok(if keep(ps[0].pdg) then [ps[0]] + rest else rest)
  }

  /** Filtering keeps the order of what it keeps. */
  lemma {:induction false} WhereAscending(ps: seq<Key>, keep: Key -> bool)
    requires Ascending(ps)
    ensures Ascending(Where(ps, keep))
  {
    if ps != [] {
      WhereAscending(ps[1..], keep);
      var rest := Where(ps[1..], keep);
      forall k | k in rest ensures Le(ps[0], k) && ps[0] != k {
        var j :| 0 <= j < |ps[1..]| && ps[1..][j] == k;
        assert ps[j + 1] == k;
      }
    }
  }

  /** The keys of a relation dictionary together with all their children. */
  function Reach(rel: map<Key, seq<Key>>): set<Key> {
    rel.Keys + (set p, c | p in rel && c in rel[p] :: c)
  }

  /** The relation dictionary restricted to the surviving parents. */
  function Restrict(rel: map<Key, seq<Key>>, parents: seq<Key>): (r: map<Key, seq<Key>>)
    ensures r.Keys == rel.Keys * Elems(parents)
    ensures forall p | p in r :: r[p] == rel[p]
  {
    map p | p in rel && p in parents :: rel[p]
  }

  /** The surviving parents among the keys `ks`, and their children. */
  ghost function Gathered(rel: map<Key, seq<Key>>, parents: seq<Key>, ks: seq<Key>): set<Key> {
    (set p | p in ks && p in rel && p in parents) + (set p, c | p in ks && p in rel && p in parents && c in rel[p] :: c)
  }

  lemma GatheredEmpty(rel: map<Key, seq<Key>>, parents: seq<Key>)
    ensures Gathered(rel, parents, []) == {}
  {
  }

  /** Visiting one more key adds it and its children when it survives. */
  lemma GatheredStep(rel: map<Key, seq<Key>>, parents: seq<Key>, ks: seq<Key>, q: Key)
    requires q in rel && q in parents
    ensures Gathered(rel, parents, ks + [q]) == Gathered(rel, parents, ks) + {q} + Elems(rel[q])
  {
    var g := Gathered(rel, parents, ks + [q]);
    var g0 := Gathered(rel, parents, ks);
    forall k | k in g ensures k in g0 + {q} + Elems(rel[q]) {
      if k != q && k !in Elems(rel[q]) {
        if k in ks && k in rel && k in parents {
        } else {
          var p, c :| p in ks + [q] && p in rel && p in parents && c in rel[p] && k == c;
          assert p in ks;
        }
      }
    }
    forall k | k in g0 ensures k in g {
      if !(k in ks && k in rel && k in parents) {
        var p, c :| p in ks && p in rel && p in parents && c in rel[p] && k == c;
        assert p in ks + [q];
      }
    }
    forall k | k in Elems(rel[q]) ensures k in g {
      assert q in ks + [q];
    }
  }

  lemma GatheredSkip(rel: map<Key, seq<Key>>, parents: seq<Key>, ks: seq<Key>, q: Key)
    requires q !in parents
    ensures Gathered(rel, parents, ks + [q]) == Gathered(rel, parents, ks)
  {
    var g := Gathered(rel, parents, ks + [q]);
    forall k | k in g ensures k in Gathered(rel, parents, ks) {
      if !(k in ks + [q] && k in rel && k in parents) {
        var p, c :| p in ks + [q] && p in rel && p in parents && c in rel[p] && k == c;
        assert p in ks;
      }
    }
  }

  /** Once every key was visited, the gathered set is what the restricted
      dictionary reaches. */
  lemma GatheredAll(rel: map<Key, seq<Key>>, parents: seq<Key>, ks: seq<Key>)
    requires forall p | p in rel :: p in ks
    ensures Gathered(rel, parents, ks) == Reach(Restrict(rel, parents))
  {
    var r := Restrict(rel, parents);
    forall k | k in Reach(r) ensures k in Gathered(rel, parents, ks) {
      if k !in r.Keys {
        var p, c :| p in r && c in r[p] && k == c;
        assert p in ks && p in rel && p in parents && c in rel[p];
      }
    }
    forall k | k in Gathered(rel, parents, ks) ensures k in Reach(r) {
      if !(k in ks && k in rel && k in parents) {
        var p, c :| p in ks && p in rel && p in parents && c in rel[p] && k == c;
        assert p in r && c in r[p];
      }
    }
  }

  lemma PrefixStep(s: seq<Key>, i: nat)
    requires i < |s|
    ensures s[..i + 1] == s[..i] + [s[i]]
  {
  }

  lemma ElemsAppend(a: seq<Key>, b: seq<Key>)
    ensures Elems(a + b) == Elems(a) + Elems(b)
  {
  }

  /** The particles collected so far, after one more surviving parent. */
  lemma CollectedStep(acc: seq<Key>, rel: map<Key, seq<Key>>, parents: seq<Key>, ks: seq<Key>, q: Key)
    requires q in rel && q in parents
    requires Elems(acc) == Gathered(rel, parents, ks)
    ensures Elems(acc + [q] + rel[q]) == Gathered(rel, parents, ks + [q])
  {
    GatheredStep(rel, parents, ks, q);
    ElemsAppend(acc + [q], rel[q]);
    ElemsAppend(acc, [q]);
  }

  /** The dictionary once the keys `done` were visited: a visited key stays
      only when it is a surviving parent. */
  ghost function Pruned(rel: map<Key, seq<Key>>, parents: seq<Key>, done: seq<Key>): map<Key, seq<Key>> {
    map p | p in rel && (p in parents || p !in done) :: rel[p]
  }

  lemma PrunedStep(rel: map<Key, seq<Key>>, parents: seq<Key>, ks: seq<Key>, q: Key)
    ensures Pruned(rel, parents, ks + [q]) == if q in parents then Pruned(rel, parents, ks) else Pruned(rel, parents, ks) - {q}
  {
  }

  lemma PrunedAll(rel: map<Key, seq<Key>>, parents: seq<Key>, ks: seq<Key>)
    requires forall p | p in rel :: p in ks
    ensures Pruned(rel, parents, ks) == Restrict(rel, parents)
  {
  }

  /** `if regenerate_index:` — drop the relations of parents that did not
      survive the filters and collect the particles from what is left. The
      dictionary is visited in sorted key order; the result does not depend
      on the order. */
  method Regenerate(relations: map<Key, seq<Key>>, parents: seq<Key>) returns (kept: map<Key, seq<Key>>, particles: seq<Key>)
    ensures kept == Restrict(relations, parents)
    ensures particles == SortSet(Reach(kept))
  {
    var keys := SortSet(relations.Keys);
    kept := relations;
    var acc: seq<Key> := [];
    GatheredEmpty(relations, parents);
    assert Pruned(relations, parents, []) == relations;
    for i := 0 to |keys|
      invariant kept == Pruned(relations, parents, keys[..i])
      invariant Elems(acc) == Gathered(relations, parents, keys[..i])
    {
      var p := keys[i];
      PrefixStep(keys, i);
      PrunedStep(relations, parents, keys[..i], p);
      if p !in parents {
        GatheredSkip(relations, parents, keys[..i], p);
        kept := kept - {p};
        continue;
      }
      CollectedStep(acc, relations, parents, keys[..i], p);
      acc := acc + [p];
      acc := acc + relations[p];
    }
    assert keys[..|keys|] == keys;
    GatheredAll(relations, parents, keys);
    PrunedAll(relations, parents, keys);
    particles := SortSet(Elems(acc));
  }

  /** `not 10 < abs(c[0]) < 20`: the child is not a lepton. */
  predicate NotLepton(code: int) {
    !(10 < Abs(code) < 20)
  }

  /** Every entry is a pair, so `c[0]` can be taken of each. */
  predicate AllPairs(cs: seq<Key>) {
    forall c | c in cs :: c.Pair?
  }

  /** One relation list without its leptons. */
  function DropLeptons(cs: seq<Key>): seq<Key>
    requires AllPairs(cs)
  {
    WhereCode(cs, NotLepton).value
  }

  /** The effect of the direct-lepton strip on a relation dictionary: every
      list loses its leptons, or the pass raises when some child is a bare
      integer. */
  function StripLeptons(rel: map<Key, seq<Key>>): Result<map<Key, seq<Key>>> {
    if forall p | p in rel :: AllPairs(rel[p]) then Ok(map p | p in rel :: DropLeptons(rel[p]))
    else Err(TypeError)
  }

  /** After the strip no relation list holds a lepton, and every non-lepton
      child is still there; the strip fails exactly when some child is a
      bare integer. */
  lemma StripLeptonsExact(rel: map<Key, seq<Key>>)
    ensures StripLeptons(rel).Ok? <==> forall p, c | p in rel && c in rel[p] :: c.Pair?
    ensures StripLeptons(rel).Ok? ==> StripLeptons(rel).value.Keys == rel.Keys
    ensures StripLeptons(rel).Ok? ==> forall p, c | p in rel && c in StripLeptons(rel).value[p] :: c in rel[p] && c.Pair? && !(10 < Abs(c.pdg) < 20)
    ensures StripLeptons(rel).Ok? ==> forall p, c | p in rel && c in rel[p] && c.Pair? && !(10 < Abs(c.pdg) < 20) :: c in StripLeptons(rel).value[p]
  {
    if StripLeptons(rel).Ok? {
      var s := StripLeptons(rel).value;
      forall p, c | p in rel && c in s[p] ensures c in rel[p] && c.Pair? && !(10 < Abs(c.pdg) < 20) {
        assert s[p] == WhereCode(rel[p], NotLepton).value;
      }
      forall p, c | p in rel && c in rel[p] && c.Pair? && !(10 < Abs(c.pdg) < 20) ensures c in s[p] {
        assert s[p] == WhereCode(rel[p], NotLepton).value;
      }
    } else {
      var p :| p in rel && !AllPairs(rel[p]);
    }
  }

  /** Every key visited so far has a list of pairs. */
  ghost predicate PairsIn(rel: map<Key, seq<Key>>, done: seq<Key>) {
    forall p | p in done && p in rel :: AllPairs(rel[p])
  }

  lemma PairsInStep(rel: map<Key, seq<Key>>, ks: seq<Key>, q: Key)
    requires PairsIn(rel, ks) && q in rel && AllPairs(rel[q])
    ensures PairsIn(rel, ks + [q])
  {
  }

  /** The relation lists after the keys in `done` were stripped. */
  ghost function StrippedUpTo(rel: map<Key, seq<Key>>, done: seq<Key>): map<Key, seq<Key>> {
    map p | p in rel :: if p in done && AllPairs(rel[p]) then DropLeptons(rel[p]) else rel[p]
  }

  lemma StrippedNone(rel: map<Key, seq<Key>>)
    ensures StrippedUpTo(rel, []) == rel
  {
  }

  lemma StrippedStep(rel: map<Key, seq<Key>>, ks: seq<Key>, q: Key)
    requires q in rel && AllPairs(rel[q])
    ensures StrippedUpTo(rel, ks + [q]) == StrippedUpTo(rel, ks)[q := DropLeptons(rel[q])]
  {
  }

  /** Once every key was visited without a failure, the strip succeeds with
      what the loop built. */
  lemma StrippedAll(rel: map<Key, seq<Key>>, ks: seq<Key>, n: nat)
    requires n == |ks| && forall p | p in rel :: p in ks
    requires PairsIn(rel, ks[..n])
    ensures StripLeptons(rel) == Ok(StrippedUpTo(rel, ks[..n]))
  {
    assert ks[..n] == ks;
    assert StrippedUpTo(rel, ks) == map p | p in rel :: DropLeptons(rel[p]);
  }

  lemma StripFails(rel: map<Key, seq<Key>>, p: Key)
    requires p in rel && !AllPairs(rel[p])
    ensures StripLeptons(rel) == Err(TypeError)
  {
  }

  /** The direct-lepton strip loop, visiting the dictionary in sorted key
      order. */
  method StripDirectLeptons(relations: map<Key, seq<Key>>) returns (r: Result<map<Key, seq<Key>>>)
    ensures r == StripLeptons(relations)
  {
    var keys := SortSet(relations.Keys);
    var stripped := relations;
    StrippedNone(relations);
    for i := 0 to |keys|
      invariant PairsIn(relations, keys[..i])
      invariant stripped == StrippedUpTo(relations, keys[..i])
    {
      var p := keys[i];
      PrefixStep(keys, i);
      if !AllPairs(relations[p]) {
        StripFails(relations, p);
        return Err(TypeError);
      }
      StrippedStep(relations, keys[..i], p);
      PairsInStep(relations, keys[..i], p);
      stripped := stripped[p := DropLeptons(relations[p])];
    }
    StrippedAll(relations, keys, |keys|);
    r := Ok(stripped);
  }

  /** `relations[parent].append(child)` over the channels in the order given,
      on a default dictionary of lists. */
  function Regroup(order: seq<Channel>): map<Key, seq<Key>> {
    if order == [] then map[]
    else
      var r := Regroup(order[..|order| - 1]);
      var ch := order[|order| - 1];
      r[ch.0 := (if ch.0 in r then r[ch.0] else []) + [ch.1]]
  }

  /** The particle list of the same loop: parent and child of every channel. */
  function Ends(order: seq<Channel>): seq<Key> {
    if order == [] then []
    else Ends(order[..|order| - 1]) + [order[|order| - 1].0, order[|order| - 1].1]
  }

  /** Regrouping loses no channel and invents none, and the particles are the
      parents with their children. */
  lemma {:induction false} RegroupExact(order: seq<Channel>)
    ensures forall ch | ch in order :: ch.0 in Regroup(order) && ch.1 in Regroup(order)[ch.0]
    ensures forall p, c | p in Regroup(order) && c in Regroup(order)[p] :: (p, c) in order
    ensures Elems(Ends(order)) == Reach(Regroup(order))
  {
    if order != [] {
      var front := order[..|order| - 1];
      var ch := order[|order| - 1];
      RegroupExact(front);
      var r0 := Regroup(front);
      AppendChild(r0, ch);
      assert forall x | x in order :: x in front || x == ch;
      assert forall x | x in front :: x in order;
      assert Elems(Ends(order)) == Elems(Ends(front)) + {ch.0, ch.1};
    }
  }

  /** One more channel in the grouped relations: the pairs are the old ones
      and the new one, and the reached particles grow by its two ends. */
  lemma AppendChild(r0: map<Key, seq<Key>>, ch: Channel)
    ensures var r := r0[ch.0 := (if ch.0 in r0 then r0[ch.0] else []) + [ch.1]];
      && r.Keys == r0.Keys + {ch.0}
      && (forall p, c :: p in r && c in r[p] <==> (p in r0 && c in r0[p]) || (p, c) == ch)
      && Reach(r) == Reach(r0) + {ch.0, ch.1}
  {
    var r := r0[ch.0 := (if ch.0 in r0 then r0[ch.0] else []) + [ch.1]];
    assert forall p, c :: p in r && c in r[p] <==> (p in r0 && c in r0[p]) || (p, c) == ch by {
      forall p, c ensures p in r && c in r[p] <==> (p in r0 && c in r0[p]) || (p, c) == ch {
        if p == ch.0 && ch.0 in r0 {
          assert r[p] == r0[p] + [ch.1];
        }
      }
    }
    assert ch.1 in r[ch.0];
  }

  /** A deterministic enumeration of a set of channels (the least parent
      first, and for it the least child). */
  function ChannelOrder(keys: set<Channel>): (r: seq<Channel>)
    ensures forall ch :: ch in r <==> ch in keys
    decreases |keys|
  {
    if keys == {} then []
    else
      var ch0 :| ch0 in keys;
      var ps := SortSet(set ch | ch in keys :: ch.0);
      assert ch0.0 in ps;
      var p := ps[0];
      var cs := SortSet(set ch | ch in keys && ch.0 == p :: ch.1);
      var w :| w in keys && w.0 == p;
      assert w.1 in cs;
      var m := (p, cs[0]);
      assert m in keys;
      [m] + ChannelOrder(keys - {m})
  }

  /** The regrouping loop of the decay index rebuild. */
  method RegroupChannels(order: seq<Channel>) returns (relations: map<Key, seq<Key>>, particles: seq<Key>)
    ensures relations == Regroup(order) && particles == Ends(order)
  {
    relations := map[];
    particles := [];
    for i := 0 to |order|
      invariant relations == Regroup(order[..i]) && particles == Ends(order[..i])
    {
      var (parent, child) := order[i];
      assert order[..i + 1][..i] == order[..i];
      relations := relations[parent := (if parent in relations then relations[parent] else []) + [child]];
      particles := particles + [parent];
      particles := particles + [child];
    }
    assert order[..|order|] == order;
  }
}
