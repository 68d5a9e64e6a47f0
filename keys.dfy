/** Particle keys as the original compares them, and the sorting it applies to them. */
module Pdg {

  /** A key is either a bare integer PDG code or a (code, tag) tuple.  The original
      mixes both: records decode to tuples, while its fixed tables hold bare
      integers, and a tuple never equals an integer. */
  datatype Key = Code(code: int) | Pair(pdg: int, tag: int)

  /** A (parent, child) channel key. */
  type Channel = (Key, Key)

  /** Python 2 ordering: an integer sorts before any tuple, tuples compare
      lexicographically. */
  predicate Le(a: Key, b: Key) {
    match (a, b)
    case (Code(x), Code(y)) => x <= y
    case (Code(_), Pair(_, _)) => true
    case (Pair(_, _), Code(_)) => false
    case (Pair(x1, x2), Pair(y1, y2)) => x1 < y1 || (x1 == y1 && x2 <= y2)
  }

  lemma LeTotal(a: Key, b: Key)
    ensures Le(a, b) || Le(b, a)
  {
  }

  lemma LeAntisymmetric(a: Key, b: Key)
    requires Le(a, b) && Le(b, a)
    ensures a == b
  {
  }

  lemma LeTransitive(a: Key, b: Key, c: Key)
    requires Le(a, b) && Le(b, c)
    ensures Le(a, c)
  {
  }

  predicate IsLeast(m: Key, s: set<Key>) {
    m in s && forall k | k in s :: Le(m, k)
  }

  /** Every finite non-empty set of keys has a least element. */
  lemma {:induction false} LeastExists(s: set<Key>)
    requires s != {}
    ensures exists m :: IsLeast(m, s)
    decreases |s|
  {
    var x :| x in s;
    if s != {x} {
      LeastExists(s - {x});
      var m :| IsLeast(m, s - {x});
      LeTotal(x, m);
      if Le(x, m) {
        forall k | k in s
          ensures Le(x, k)
        {
          if k != x {
            LeTransitive(x, m, k);
          }
        }
        assert IsLeast(x, s);
      } else {
        assert IsLeast(m, s);
      }
    } else {
      assert IsLeast(x, s);
    }
  }

  lemma LeastUnique(s: set<Key>)
    ensures forall a, b | IsLeast(a, s) && IsLeast(b, s) :: a == b
  {
    forall a, b | IsLeast(a, s) && IsLeast(b, s)
      ensures a == b
    {
      LeAntisymmetric(a, b);
    }
  }

  /** Strictly increasing: sorted and free of duplicates. */
  predicate Ascending(r: seq<Key>) {
    forall i, j | 0 <= i < j < |r| :: Le(r[i], r[j]) && r[i] != r[j]
  }

  /** Strictly increasing integers. */
  predicate Increasing(s: seq<int>) {
    forall i, j | 0 <= i < j < |s| :: s[i] < s[j]
  }

  predicate NonDecreasing(r: seq<Key>) {
    forall i, j | 0 <= i < j < |r| :: Le(r[i], r[j])
  }

  /** `sorted(s)` for a set of keys (`sorted(d.keys())`, `sorted(set(xs))`). */
  function SortSet(s: set<Key>): (r: seq<Key>)
    ensures Ascending(r) && |r| == |s|
    ensures forall k :: k in r <==> k in s
    decreases |s|
  {
    if s == {} then []
    else
      LeastExists(s);
      LeastUnique(s);
      var m :| IsLeast(m, s);
      var t := SortSet(s - {m});
      assert forall k | k in t :: Le(m, k) && m != k;
      [m] + t
  }

  /** Inserts `x` before the first element it does not exceed. */
  function Insert(x: Key, s: seq<Key>): seq<Key> {
    if s == [] || Le(x, s[0]) then [x] + s
    else [s[0]] + Insert(x, s[1..])
  }

  /** Insertion keeps a list sorted and adds exactly one element. */
  lemma {:induction false} InsertSorted(x: Key, s: seq<Key>)
    requires NonDecreasing(s)
    ensures NonDecreasing(Insert(x, s))
    ensures multiset(Insert(x, s)) == multiset(s) + multiset{x}
  {
    InsertElems(x, s);
    if s == [] || Le(x, s[0]) {
      forall k | k in s ensures Le(x, k) {
        if k != s[0] {
          LeTransitive(x, s[0], k);
        }
      }
      ConsSorted(x, s);
    } else {
      var t := Insert(x, s[1..]);
      InsertSorted(x, s[1..]);
      InsertElems(x, s[1..]);
      LeTotal(x, s[0]);
      forall k | k in t ensures Le(s[0], k) {
        assert k in multiset(t);
        assert k in multiset(s[1..]) || k == x;
      }
      ConsSorted(s[0], t);
    }
  }

  lemma {:induction false} InsertElems(x: Key, s: seq<Key>)
    ensures multiset(Insert(x, s)) == multiset(s) + multiset{x}
  {
    if !(s == [] || Le(x, s[0])) {
      InsertElems(x, s[1..]);
      assert s == [s[0]] + s[1..];
    }
  }

  lemma ConsSorted(a: Key, t: seq<Key>)
    requires NonDecreasing(t) && forall k | k in t :: Le(a, k)
    ensures NonDecreasing([a] + t)
  {
    var u := [a] + t;
    forall i, j | 0 <= i < j < |u| ensures Le(u[i], u[j]) {
      assert u[j] == t[j - 1];
      if i > 0 {
        assert u[i] == t[i - 1];
      }
    }
  }

  /** `sorted(xs)` for a list of keys that may repeat. */
  function SortSeq(s: seq<Key>): (r: seq<Key>)
    ensures NonDecreasing(r)
    ensures multiset(r) == multiset(s)
  {
    if s == [] then []
    else
      assert s == [s[0]] + s[1..];
      InsertSorted(s[0], SortSeq(s[1..]));
      Insert(s[0], SortSeq(s[1..]))
  }

  /** The set of the elements of a list (`set(xs)`). */
  function Elems(s: seq<Key>): set<Key> {
    set k | k in s
  }

  /** Python's `sub in s` on strings. */
  predicate HasSubstring(s: string, sub: string)
    decreases |s|
  {
    (|sub| <= |s| && s[..|sub|] == sub) || (|s| > 0 && HasSubstring(s[1..], sub))
  }

  function Abs(x: int): nat {
    if x < 0 then -x else x
  }

  /** `np.sign` on an integer. */
  function Sign(x: int): int {
    if x > 0 then 1 else if x < 0 then -1 else 0
  }
}
