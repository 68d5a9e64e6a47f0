/** Building the channel index from the flattened records of one store group
    (`HDF5Backend._gen_db_dictionary`). */
module Records {
  import opened Wrappers
  import opened Pdg
  import opened Matrices

  /** One record: its tuple of codes and the length of its payload block. */
  datatype Record = Record(tup: seq<int>, len: nat)

  /** One group of the store: the records in file order, the two payload rows
      (values and column indices) and the optional description attribute. */
  datatype RecordGroup = RecordGroup(
    records: seq<Record>,
    values: seq<real>,
    columns: seq<real>,
    description: Option<string>)

  /** Turns a record's payload block into its dense, energy-cut matrix; the
      record number selects its row of index pointers.  This stands for the
      sparse-matrix construction and slicing, which are not part of this model. */
  type Dense = (seq<real>, seq<real>, nat) -> Mat

  /** The index a group yields. */
  datatype Index = Index(
    parents: seq<Key>,
    particles: seq<Key>,
    relations: map<Key, seq<Key>>,
    indexD: map<Channel, Mat>,
    description: Option<string>)

  /** Decodes a record tuple into a (parent, child) channel; `None` stands for
      the exception raised on any other length. */
  function DecodeTuple(tup: seq<int>): (r: Option<Channel>)
    ensures r.Some? <==> |tup| == 2 || |tup| == 4
    ensures r.Some? ==> r.value.0.Pair? && r.value.1.Pair?
  {
    if |tup| == 4 then Some((Pair(tup[0], tup[1]), Pair(tup[2], tup[3])))
    else if |tup| == 2 then Some((Pair(tup[0], 0), Pair(tup[1], 0)))
    else None
  }

  /** The 4-tuple a channel of two tuple keys is stored as. */
  function EncodeChannel(ch: Channel): (t: seq<int>)
    requires ch.0.Pair? && ch.1.Pair?
    ensures |t| == 4
  {
    [ch.0.pdg, ch.0.tag, ch.1.pdg, ch.1.tag]
  }

  /** Decoding inverts encoding, and a 2-tuple decodes like the 4-tuple with
      zero tags. */
  lemma DecodeRoundTrip(ch: Channel, a: int, b: int)
    requires ch.0.Pair? && ch.1.Pair?
    ensures DecodeTuple(EncodeChannel(ch)) == Some(ch)
    ensures DecodeTuple([a, b]) == DecodeTuple([a, 0, b, 0])
  {
  }

  /** A record is skipped when the magnitude of its parent or child code is
      disabled. */
  predicate Excluded(ch: Channel, exclude: seq<int>)
    requires ch.0.Pair? && ch.1.Pair?
  {
    Abs(ch.0.pdg) in exclude || Abs(ch.1.pdg) in exclude
  }

  /** `xs[a:b]` for 0 <= a: Python clamps both bounds to the length. */
  function Slice<T>(xs: seq<T>, a: nat, b: nat): seq<T> {
    var hi := if b > |xs| then |xs| else b;
    var lo := if a > hi then hi else a;
    xs[lo..hi]
  }

  /** The loop state: the matrices by channel, the relation lists (each key
      names the id of a list; several keys may name the same list), the
      particle list and the read cursor into the payload. */
  datatype Scan = Scan(
    indexD: map<Channel, Mat>,
    slot: map<Key, nat>,
    lists: seq<seq<Key>>,
    seen: seq<Key>,
    cursor: nat)

  /** `relations[p].append(c)` on a default dictionary of lists. */
  function Append(s: Scan, p: Key, c: Key): (r: Scan)
    ensures r.indexD == s.indexD && r.seen == s.seen && r.cursor == s.cursor
  {
    if p in s.slot && s.slot[p] < |s.lists| then s.(lists := s.lists[s.slot[p] := s.lists[s.slot[p]] + [c]])
    else s.(slot := s.slot[p := |s.lists|], lists := s.lists + [[c]])
  }

  /** The relation lists as the dictionary returns them. */
  function Resolve(s: Scan): map<Key, seq<Key>>
  {
    map k | k in s.slot :: if s.slot[k] < |s.lists| then s.lists[s.slot[k]] else []
  }

  predicate KeptAt(g: RecordGroup, exclude: seq<int>, i: nat)
    requires i < |g.records|
  {
    var d := DecodeTuple(g.records[i].tup);
    d.Some? && !Excluded(d.value, exclude)
  }

  function ChannelAt(g: RecordGroup, i: nat): Channel
    requires i < |g.records| && DecodeTuple(g.records[i].tup).Some?
  {
    DecodeTuple(g.records[i].tup).value
  }

  /** The bookkeeping for a kept record: its matrix, its place in the relation
      lists and the particle list, and the link of an equivalent parent, which
      gets the same matrix and the very same children list. */
  function Keep(s: Scan, p: Key, c: Key, m: Mat, eqv: map<Key, Key>): Scan
  {
    var s1 := Append(s.(indexD := s.indexD[(p, c) := m], seen := s.seen + [p, c]), p, c);
    if p in eqv then
      s1.(indexD := s1.indexD[(eqv[p], c) := m],
          slot := s1.slot[eqv[p] := s1.slot[p]],
          seen := s1.seen + [eqv[p]])
    else s1
  }

  /** The payload block of a record read at the cursor. */
  function BlockMatrix(g: RecordGroup, i: nat, cursor: nat, dense: Dense): Mat
    requires i < |g.records|
  {
    var n := g.records[i].len;
    dense(Slice(g.values, cursor, cursor + n), Slice(g.columns, cursor, cursor + n), i)
  }

  /** One turn of the loop over the records. */
  function ScanStep(s: Scan, g: RecordGroup, i: nat, exclude: seq<int>, eqv: map<Key, Key>, dense: Dense): (r: Result<Scan>)
    requires i < |g.records|
  {
    var d := DecodeTuple(g.records[i].tup);
    if d.None? then Err(DecodeFailure)
    else if Excluded(d.value, exclude) then Ok(s.(cursor := s.cursor + g.records[i].len))
    else
      var s2 := Keep(s, d.value.0, d.value.1, BlockMatrix(g, i, s.cursor, dense), eqv);
      Ok(s2.(cursor := s2.cursor + g.records[i].len))
  }

  /** The step on a kept record, spelled out. */
  lemma KeptStep(s: Scan, g: RecordGroup, i: nat, exclude: seq<int>, eqv: map<Key, Key>, dense: Dense)
    requires i < |g.records| && KeptAt(g, exclude, i)
    ensures ScanStep(s, g, i, exclude, eqv, dense)
      == Ok(Keep(s, ChannelAt(g, i).0, ChannelAt(g, i).1, BlockMatrix(g, i, s.cursor, dense), eqv).(cursor := s.cursor + g.records[i].len))
  {
  }

  /** The state after the first n records. */
  function Fold(g: RecordGroup, exclude: seq<int>, eqv: map<Key, Key>, dense: Dense, n: nat): (r: Result<Scan>)
    requires n <= |g.records|
  {
    if n == 0 then Ok(Scan(map[], map[], [], [], 0))
    else
      match Fold(g, exclude, eqv, dense, n - 1)
      case Err(e) => Err(e)
      case Ok(s) => ScanStep(s, g, n - 1, exclude, eqv, dense)
  }

  /** Once a record fails to decode, the whole loop has failed. */
  lemma {:induction false} FoldErrorStays(g: RecordGroup, exclude: seq<int>, eqv: map<Key, Key>, dense: Dense, n: nat, m: nat)
    requires n <= m <= |g.records|
    requires Fold(g, exclude, eqv, dense, n).Err?
    ensures Fold(g, exclude, eqv, dense, m).Err?
    decreases m - n
  {
    if n < m {
      FoldErrorStays(g, exclude, eqv, dense, n + 1, m);
    }
  }

  /** One more record is one more step. */
  lemma FoldNext(g: RecordGroup, exclude: seq<int>, eqv: map<Key, Key>, dense: Dense, n: nat)
    requires n < |g.records| && Fold(g, exclude, eqv, dense, n).Ok?
    ensures Fold(g, exclude, eqv, dense, n + 1) == ScanStep(Fold(g, exclude, eqv, dense, n).value, g, n, exclude, eqv, dense)
  {
  }

  /** What the dictionary returns once the loop is done. */
  function Finish(s: Scan, description: Option<string>): Index
  {
    Index(SortSet(s.slot.Keys), SortSet(Elems(s.seen)), Resolve(s), s.indexD, description)
  }

  /** One pass of the loop body: decode the record's tuple, skip it (moving
      only the cursor) when a code is disabled, otherwise read its block,
      enter the matrix and the relation, and link an equivalent parent. */
  method ReadRecord(g: RecordGroup, i: nat, s: Scan, exclude: seq<int>, eqv: map<Key, Key>, dense: Dense) returns (r: Result<Scan>)
    requires i < |g.records|
    ensures r == ScanStep(s, g, i, exclude, eqv, dense)
  {
    var rec := g.records[i];
    var parentChild := DecodeTuple(rec.tup);
    if parentChild.None? {
      return Err(DecodeFailure);
    }
    var (parent, child) := parentChild.value;
    if Abs(parent.pdg) in exclude || Abs(child.pdg) in exclude {
      return Ok(s.(cursor := s.cursor + rec.len));
    }
    var m := dense(Slice(g.values, s.cursor, s.cursor + rec.len), Slice(g.columns, s.cursor, s.cursor + rec.len), i);
    var t := s.(indexD := s.indexD[(parent, child) := m], seen := s.seen + [parent, child]);
    t := Append(t, parent, child);
    if parent in eqv {
      t := t.(indexD := t.indexD[(eqv[parent], child) := t.indexD[(parent, child)]],
              slot := t.slot[eqv[parent] := t.slot[parent]],
              seen := t.seen + [eqv[parent]]);
    }
    return Ok(t.(cursor := t.cursor + rec.len));
  }

  /** A failure on the first n records is the dictionary's failure. */
  lemma DictionaryFailsAfter(g: RecordGroup, exclude: seq<int>, eqv: map<Key, Key>, dense: Dense, n: nat)
    requires n <= |g.records| && Fold(g, exclude, eqv, dense, n).Err?
    ensures DbDictionary(g, exclude, eqv, dense) == Err(DecodeFailure)
  {
    FoldErrorStays(g, exclude, eqv, dense, n, |g.records|);
    FoldFailsOnDecoding(g, exclude, eqv, dense, |g.records|);
  }

  /** The dictionary a group yields: the state after all records, finished,
      or the decoding failure. */
  function DbDictionary(g: RecordGroup, exclude: seq<int>, eqv: map<Key, Key>, dense: Dense): Result<Index> {
    match Fold(g, exclude, eqv, dense, |g.records|)
    case Err(e) => Err(e)
    case Ok(s) => Ok(Finish(s, g.description))
  }

  lemma DictionaryOfFold(g: RecordGroup, exclude: seq<int>, eqv: map<Key, Key>, dense: Dense, s: Scan)
    requires Fold(g, exclude, eqv, dense, |g.records|) == Ok(s)
    ensures DbDictionary(g, exclude, eqv, dense) == Ok(Finish(s, g.description))
  {
  }

  /** The loop over the records, appending to the particle list and the
      relation lists and filling the matrix index as it goes. */
  method GenDbDictionary(g: RecordGroup, exclude: seq<int>, eqv: map<Key, Key>, dense: Dense) returns (r: Result<Index>)
    ensures r == DbDictionary(g, exclude, eqv, dense)
  {
    var s := Scan(map[], map[], [], [], 0);
    var i := 0;
    while i < |g.records|
      invariant 0 <= i <= |g.records|
      invariant Fold(g, exclude, eqv, dense, i) == Ok(s)
    {
      var next := ReadRecord(g, i, s, exclude, eqv, dense);
      FoldNext(g, exclude, eqv, dense, i);
      if next.Err? {
        DictionaryFailsAfter(g, exclude, eqv, dense, i + 1);
        return Err(DecodeFailure);
      }
      s := next.value;
      i := i + 1;
    }
    DictionaryOfFold(g, exclude, eqv, dense, s);
    r := Ok(Finish(s, g.description));
  }

  // Properties of the loop over the records.

  /** Sum of the payload lengths of the first n records. */
  function LenSum(rs: seq<Record>, n: nat): nat
    requires n <= |rs|
  {
    if n == 0 then 0 else LenSum(rs, n - 1) + rs[n - 1].len
  }

  /** The loop fails exactly when one of the records has a tuple of a length
      other than two or four. */
  lemma {:induction false} FoldFailsIff(g: RecordGroup, exclude: seq<int>, eqv: map<Key, Key>, dense: Dense, n: nat)
    requires n <= |g.records|
    ensures Fold(g, exclude, eqv, dense, n).Ok? <==> forall i | 0 <= i < n :: DecodeTuple(g.records[i].tup).Some?
  {
    if n > 0 {
      FoldFailsIff(g, exclude, eqv, dense, n - 1);
    }
  }

  /** A loop that got through n records got through every prefix of them. */
  lemma FoldOkPrefix(g: RecordGroup, exclude: seq<int>, eqv: map<Key, Key>, dense: Dense, m: nat, n: nat)
    requires m <= n <= |g.records| && Fold(g, exclude, eqv, dense, n).Ok?
    ensures Fold(g, exclude, eqv, dense, m).Ok?
  {
    FoldFailsIff(g, exclude, eqv, dense, n);
    FoldFailsIff(g, exclude, eqv, dense, m);
  }

  /** Excluded records are skipped without losing the place in the payload:
      the cursor always ends at the total length of the records read. */
  lemma {:induction false} FoldCursor(g: RecordGroup, exclude: seq<int>, eqv: map<Key, Key>, dense: Dense, n: nat)
    requires n <= |g.records| && Fold(g, exclude, eqv, dense, n).Ok?
    ensures Fold(g, exclude, eqv, dense, n).value.cursor == LenSum(g.records, n)
  {
    if n > 0 {
      FoldOkPrefix(g, exclude, eqv, dense, n - 1, n);
      FoldCursor(g, exclude, eqv, dense, n - 1);
      var s := Fold(g, exclude, eqv, dense, n - 1).value;
      if KeptAt(g, exclude, n - 1) {
        KeptNext(s, g, exclude, eqv, dense, n - 1);
      } else {
        SkippedNext(s, g, exclude, eqv, dense, n - 1);
      }
    }
  }

  /** The children of p among the first n records that are kept, in record order. */
  ghost function KeptChildren(g: RecordGroup, exclude: seq<int>, p: Key, n: nat): seq<Key>
    requires n <= |g.records|
  {
    if n == 0 then []
    else if KeptAt(g, exclude, n - 1) && ChannelAt(g, n - 1).0 == p
    then KeptChildren(g, exclude, p, n - 1) + [ChannelAt(g, n - 1).1]
    else KeptChildren(g, exclude, p, n - 1)
  }

  /** The channels of the kept records among the first n. */
  ghost function KeptChannels(g: RecordGroup, exclude: seq<int>, n: nat): set<Channel>
    requires n <= |g.records|
  {
    if n == 0 then {}
    else if KeptAt(g, exclude, n - 1) then KeptChannels(g, exclude, n - 1) + {ChannelAt(g, n - 1)}
    else KeptChannels(g, exclude, n - 1)
  }

  /** The codes, parents and children, of the kept records among the first n. */
  ghost function MentionedKeys(g: RecordGroup, exclude: seq<int>, n: nat): set<Key>
    requires n <= |g.records|
  {
    if n == 0 then {}
    else if KeptAt(g, exclude, n - 1) then MentionedKeys(g, exclude, n - 1) + {ChannelAt(g, n - 1).0, ChannelAt(g, n - 1).1}
    else MentionedKeys(g, exclude, n - 1)
  }

  /** Without equivalences, each parent owns one list and that list holds the
      kept children in order. */
  ghost predicate Owned(slot: map<Key, nat>, lists: seq<seq<Key>>, g: RecordGroup, exclude: seq<int>, n: nat)
    requires n <= |g.records|
  {
    && (forall k | k in slot :: slot[k] < |lists|)
    && (forall k1, k2 | k1 in slot && k2 in slot && slot[k1] == slot[k2] :: k1 == k2)
    && (forall k | k in slot :: lists[slot[k]] == KeptChildren(g, exclude, k, n) != [])
    && (forall k | k !in slot :: KeptChildren(g, exclude, k, n) == [])
  }

  lemma OwnedAppend(s: Scan, g: RecordGroup, exclude: seq<int>, n: nat)
    requires n < |g.records| && KeptAt(g, exclude, n) && Owned(s.slot, s.lists, g, exclude, n)
    ensures var r := Append(s, ChannelAt(g, n).0, ChannelAt(g, n).1);
      Owned(r.slot, r.lists, g, exclude, n + 1)
  {
    var (p, c) := ChannelAt(g, n);
    KeptChildrenNext(g, exclude, n);
    if p in s.slot {
      OwnedExtend(s.slot, s.lists, g, exclude, n);
    } else {
      OwnedOpen(s.slot, s.lists, g, exclude, n);
    }
  }

  /** Only the record's parent gains a child, at the end of its list. */
  lemma KeptChildrenNext(g: RecordGroup, exclude: seq<int>, n: nat)
    requires n < |g.records| && KeptAt(g, exclude, n)
    ensures forall k :: (KeptChildren(g, exclude, k, n + 1)
      == if k == ChannelAt(g, n).0 then KeptChildren(g, exclude, k, n) + [ChannelAt(g, n).1] else KeptChildren(g, exclude, k, n))
  {
  }

  /** A parent that already owns a list: its list grows by the child. */
  lemma OwnedExtend(slot: map<Key, nat>, lists: seq<seq<Key>>, g: RecordGroup, exclude: seq<int>, n: nat)
    requires n < |g.records| && KeptAt(g, exclude, n) && Owned(slot, lists, g, exclude, n)
    requires ChannelAt(g, n).0 in slot
    requires forall k :: (KeptChildren(g, exclude, k, n + 1)
      == if k == ChannelAt(g, n).0 then KeptChildren(g, exclude, k, n) + [ChannelAt(g, n).1] else KeptChildren(g, exclude, k, n))
    ensures var (p, c) := ChannelAt(g, n);
      Owned(slot, lists[slot[p] := lists[slot[p]] + [c]], g, exclude, n + 1)
  {
    var (p, c) := ChannelAt(g, n);
    var lists' := lists[slot[p] := lists[slot[p]] + [c]];
    forall k | k in slot
      ensures lists'[slot[k]] == KeptChildren(g, exclude, k, n + 1) != []
    {
      if k != p {
        assert slot[k] != slot[p];
      }
    }
  }

  /** A parent without a list gets a new one holding the child. */
  lemma OwnedOpen(slot: map<Key, nat>, lists: seq<seq<Key>>, g: RecordGroup, exclude: seq<int>, n: nat)
    requires n < |g.records| && KeptAt(g, exclude, n) && Owned(slot, lists, g, exclude, n)
    requires ChannelAt(g, n).0 !in slot
    requires forall k :: (KeptChildren(g, exclude, k, n + 1)
      == if k == ChannelAt(g, n).0 then KeptChildren(g, exclude, k, n) + [ChannelAt(g, n).1] else KeptChildren(g, exclude, k, n))
    ensures var (p, c) := ChannelAt(g, n);
      Owned(slot[p := |lists|], lists + [[c]], g, exclude, n + 1)
  {
    var (p, c) := ChannelAt(g, n);
    var slot', lists' := slot[p := |lists|], lists + [[c]];
    forall k | k in slot'
      ensures lists'[slot'[k]] == KeptChildren(g, exclude, k, n + 1) != []
    {
      if k != p {
        assert slot'[k] == slot[k] < |lists|;
      }
    }
  }

  /** The state after a kept record. */
  lemma KeptNext(s: Scan, g: RecordGroup, exclude: seq<int>, eqv: map<Key, Key>, dense: Dense, n: nat)
    requires n < |g.records| && Fold(g, exclude, eqv, dense, n) == Ok(s) && KeptAt(g, exclude, n)
    ensures Fold(g, exclude, eqv, dense, n + 1)
      == Ok(Keep(s, ChannelAt(g, n).0, ChannelAt(g, n).1, BlockMatrix(g, n, s.cursor, dense), eqv).(cursor := s.cursor + g.records[n].len))
  {
    FoldNext(g, exclude, eqv, dense, n);
    KeptStep(s, g, n, exclude, eqv, dense);
  }

  /** The fields of the state after a kept record, without equivalences. */
  lemma KeptNextPlain(s: Scan, g: RecordGroup, exclude: seq<int>, dense: Dense, n: nat)
    requires n < |g.records| && Fold(g, exclude, map[], dense, n) == Ok(s) && KeptAt(g, exclude, n)
    ensures var t := Fold(g, exclude, map[], dense, n + 1).value;
      && t.indexD == s.indexD[ChannelAt(g, n) := BlockMatrix(g, n, s.cursor, dense)]
      && t.seen == s.seen + [ChannelAt(g, n).0, ChannelAt(g, n).1]
      && t.cursor == s.cursor + g.records[n].len
  {
    KeptNext(s, g, exclude, map[], dense, n);
  }

  /** The state after a skipped record: only the cursor moves. */
  lemma SkippedNext(s: Scan, g: RecordGroup, exclude: seq<int>, eqv: map<Key, Key>, dense: Dense, n: nat)
    requires n < |g.records| && Fold(g, exclude, eqv, dense, n) == Ok(s)
    requires DecodeTuple(g.records[n].tup).Some? && !KeptAt(g, exclude, n)
    ensures Fold(g, exclude, eqv, dense, n + 1) == Ok(s.(cursor := s.cursor + g.records[n].len))
  {
    FoldNext(g, exclude, eqv, dense, n);
  }

  /** Without equivalences, each parent's relation list holds its kept
      children in record order, and a key has a list exactly when it is the
      parent of a kept record. */
  lemma {:induction false} FoldOwned(g: RecordGroup, exclude: seq<int>, dense: Dense, n: nat)
    requires n <= |g.records| && Fold(g, exclude, map[], dense, n).Ok?
    ensures var s := Fold(g, exclude, map[], dense, n).value;
      Owned(s.slot, s.lists, g, exclude, n)
  {
    if n > 0 {
      FoldOkPrefix(g, exclude, map[], dense, n - 1, n);
      FoldOwned(g, exclude, dense, n - 1);
      var s := Fold(g, exclude, map[], dense, n - 1).value;
      assert Owned(s.slot, s.lists, g, exclude, n - 1);
      OwnedNext(s, g, exclude, dense, n - 1);
    }
  }

  /** One record further, the relation lists stay owned. */
  lemma OwnedNext(s: Scan, g: RecordGroup, exclude: seq<int>, dense: Dense, n: nat)
    requires n < |g.records| && Fold(g, exclude, map[], dense, n) == Ok(s) && Fold(g, exclude, map[], dense, n + 1).Ok?
    requires Owned(s.slot, s.lists, g, exclude, n)
    ensures var t := Fold(g, exclude, map[], dense, n + 1).value;
      Owned(t.slot, t.lists, g, exclude, n + 1)
  {
    FoldFailsIff(g, exclude, map[], dense, n + 1);
    if KeptAt(g, exclude, n) {
      KeptNext(s, g, exclude, map[], dense, n);
      var (p, c) := ChannelAt(g, n);
      var s1 := s.(indexD := s.indexD[(p, c) := BlockMatrix(g, n, s.cursor, dense)], seen := s.seen + [p, c]);
      OwnedAppend(s1, g, exclude, n);
      var a := Append(s1, p, c);
      var t := Fold(g, exclude, map[], dense, n + 1).value;
      assert t.slot == a.slot && t.lists == a.lists;
    } else {
      SkippedNext(s, g, exclude, map[], dense, n);
      KeptChildrenSkip(g, exclude, n);
    }
  }

  /** A skipped record adds no child. */
  lemma KeptChildrenSkip(g: RecordGroup, exclude: seq<int>, n: nat)
    requires n < |g.records| && !KeptAt(g, exclude, n)
    ensures forall k :: KeptChildren(g, exclude, k, n + 1) == KeptChildren(g, exclude, k, n)
  {
  }

  /** Without equivalences, the matrix index has an entry for exactly the
      channels of the kept records. */
  lemma {:induction false} FoldChannels(g: RecordGroup, exclude: seq<int>, dense: Dense, n: nat)
    requires n <= |g.records| && Fold(g, exclude, map[], dense, n).Ok?
    ensures Fold(g, exclude, map[], dense, n).value.indexD.Keys == KeptChannels(g, exclude, n)
  {
    if n > 0 {
      FoldOkPrefix(g, exclude, map[], dense, n - 1, n);
      FoldChannels(g, exclude, dense, n - 1);
      var s := Fold(g, exclude, map[], dense, n - 1).value;
      if KeptAt(g, exclude, n - 1) {
        KeptNextPlain(s, g, exclude, dense, n - 1);
      } else {
        SkippedNext(s, g, exclude, map[], dense, n - 1);
      }
    }
  }

  /** Without equivalences, the particle list mentions exactly the codes of
      the kept records. */
  lemma {:induction false} FoldParticles(g: RecordGroup, exclude: seq<int>, dense: Dense, n: nat)
    requires n <= |g.records| && Fold(g, exclude, map[], dense, n).Ok?
    ensures Elems(Fold(g, exclude, map[], dense, n).value.seen) == MentionedKeys(g, exclude, n)
  {
    if n > 0 {
      FoldOkPrefix(g, exclude, map[], dense, n - 1, n);
      FoldParticles(g, exclude, dense, n - 1);
      var s := Fold(g, exclude, map[], dense, n - 1).value;
      if KeptAt(g, exclude, n - 1) {
        KeptNextPlain(s, g, exclude, dense, n - 1);
        var (p, c) := ChannelAt(g, n - 1);
        assert Elems(s.seen + [p, c]) == Elems(s.seen) + {p, c};
      } else {
        SkippedNext(s, g, exclude, map[], dense, n - 1);
      }
    }
  }

  /** The relation lists the loop returns, read without equivalences: exactly
      the parents of kept records, each with its kept children in record order. */
  lemma RelationsAreKeptChildren(g: RecordGroup, exclude: seq<int>, dense: Dense)
    requires Fold(g, exclude, map[], dense, |g.records|).Ok?
    ensures var rel := Resolve(Fold(g, exclude, map[], dense, |g.records|).value);
      forall k :: (k in rel <==> KeptChildren(g, exclude, k, |g.records|) != [])
        && (k in rel ==> rel[k] == KeptChildren(g, exclude, k, |g.records|))
  {
    FoldOwned(g, exclude, dense, |g.records|);
  }

  /** An equivalent parent gets the same matrix as the record's parent and is
      bound to the very same relation list, so later appends reach both. */
  lemma AliasSharesList(s: Scan, g: RecordGroup, i: nat, exclude: seq<int>, eqv: map<Key, Key>, dense: Dense)
    requires i < |g.records| && KeptAt(g, exclude, i) && ChannelAt(g, i).0 in eqv
    ensures var r := ScanStep(s, g, i, exclude, eqv, dense).value;
      var (p, c) := ChannelAt(g, i);
      && r.indexD[(eqv[p], c)] == r.indexD[(p, c)] == BlockMatrix(g, i, s.cursor, dense)
      && eqv[p] in r.slot && p in r.slot && r.slot[eqv[p]] == r.slot[p]
      && Resolve(r)[eqv[p]] == Resolve(r)[p]
      && eqv[p] in Elems(r.seen)
  {
    KeptStep(s, g, i, exclude, eqv, dense);
  }

  /** Equivalences keyed by bare integers never fire, since every parent the
      records decode to is a tuple key: the loop runs as if there were none. */
  lemma {:induction false} IntKeyedEquivalencesInert(g: RecordGroup, exclude: seq<int>, eqv: map<Key, Key>, dense: Dense, n: nat)
    requires n <= |g.records| && Fold(g, exclude, eqv, dense, n).Ok?
    requires forall k | k in eqv :: k.Code?
    ensures Fold(g, exclude, eqv, dense, n) == Fold(g, exclude, map[], dense, n)
  {
    if n > 0 {
      FoldOkPrefix(g, exclude, eqv, dense, n - 1, n);
      IntKeyedEquivalencesInert(g, exclude, eqv, dense, n - 1);
      var s := Fold(g, exclude, eqv, dense, n - 1).value;
      FoldNext(g, exclude, eqv, dense, n - 1);
      FoldNext(g, exclude, map[], dense, n - 1);
      if KeptAt(g, exclude, n - 1) {
        KeptStep(s, g, n - 1, exclude, eqv, dense);
        KeptStep(s, g, n - 1, exclude, map[], dense);
      }
    }
  }

  /** The loader's result is well formed: the parents are the sorted keys of
      the relations, and the particles are sorted and free of duplicates. */
  lemma FinishShape(s: Scan, description: Option<string>)
    ensures var x := Finish(s, description);
      Ascending(x.parents) && Elems(x.parents) == x.relations.Keys
      && Ascending(x.particles) && Elems(x.particles) == Elems(s.seen)
      && x.indexD == s.indexD
  {
  }

  /** The only way the loop fails is a record that does not decode. */
  lemma {:induction false} FoldFailsOnDecoding(g: RecordGroup, exclude: seq<int>, eqv: map<Key, Key>, dense: Dense, n: nat)
    requires n <= |g.records|
    ensures Fold(g, exclude, eqv, dense, n).Err? ==> Fold(g, exclude, eqv, dense, n).error == DecodeFailure
  {
    if n > 0 {
      FoldFailsOnDecoding(g, exclude, eqv, dense, n - 1);
    }
  }

  /** Only tuple keys come out of decoding: a key with kept children is a
      tuple, and so is each of those children. */
  lemma {:induction false} KeptChildrenArePairs(g: RecordGroup, exclude: seq<int>, p: Key, n: nat)
    requires n <= |g.records|
    ensures KeptChildren(g, exclude, p, n) != [] ==> p.Pair?
    ensures forall c | c in KeptChildren(g, exclude, p, n) :: c.Pair?
  {
    if n > 0 {
      KeptChildrenArePairs(g, exclude, p, n - 1);
    }
  }

  lemma {:induction false} MentionedKeysArePairs(g: RecordGroup, exclude: seq<int>, n: nat)
    requires n <= |g.records|
    ensures forall k | k in MentionedKeys(g, exclude, n) :: k.Pair?
  {
    if n > 0 {
      MentionedKeysArePairs(g, exclude, n - 1);
    }
  }

  /** Without equivalences, every parent, particle and child in the
      dictionary is a tuple key. */
  lemma PlainDictionaryHasPairKeys(g: RecordGroup, exclude: seq<int>, dense: Dense)
    requires DbDictionary(g, exclude, map[], dense).Ok?
    ensures var x := DbDictionary(g, exclude, map[], dense).value;
      && (forall p | p in x.parents :: p.Pair?)
      && (forall p | p in x.particles :: p.Pair?)
      && (forall p, c | p in x.relations && c in x.relations[p] :: c.Pair?)
  {
    var n := |g.records|;
    var s := Fold(g, exclude, map[], dense, n).value;
    FoldOwned(g, exclude, dense, n);
    FoldParticles(g, exclude, dense, n);
    MentionedKeysArePairs(g, exclude, n);
    forall p | p in s.slot
      ensures p.Pair? && forall c | c in Resolve(s)[p] :: c.Pair?
    {
      KeptChildrenArePairs(g, exclude, p, n);
    }
  }

  /** Equivalence tables keyed by bare integers leave the dictionary exactly
      as if no table had been given, failure included. */
  lemma DictionaryIgnoresIntKeyedEquivalences(g: RecordGroup, exclude: seq<int>, eqv: map<Key, Key>, dense: Dense)
    requires forall k | k in eqv :: k.Code?
    ensures DbDictionary(g, exclude, eqv, dense) == DbDictionary(g, exclude, map[], dense)
  {
    var n := |g.records|;
    FoldFailsIff(g, exclude, eqv, dense, n);
    FoldFailsIff(g, exclude, map[], dense, n);
    FoldFailsOnDecoding(g, exclude, eqv, dense, n);
    FoldFailsOnDecoding(g, exclude, map[], dense, n);
    if Fold(g, exclude, eqv, dense, n).Ok? {
      IntKeyedEquivalencesInert(g, exclude, eqv, dense, n);
    }
  }

  /** A child is among p's kept children exactly when (p, child) is a kept
      channel. */
  lemma {:induction false} KeptChildrenAreChannels(g: RecordGroup, exclude: seq<int>, p: Key, n: nat)
    requires n <= |g.records|
    ensures forall c :: c in KeptChildren(g, exclude, p, n) <==> (p, c) in KeptChannels(g, exclude, n)
  {
    if n > 0 {
      KeptChildrenAreChannels(g, exclude, p, n - 1);
    }
  }

  /** Without equivalences, the matrix index and the relation lists of the
      dictionary describe the same channels: a matrix exists exactly for each
      child listed under its parent. */
  lemma DictionaryChannelsMatchRelations(g: RecordGroup, exclude: seq<int>, dense: Dense)
    requires DbDictionary(g, exclude, map[], dense).Ok?
    ensures var x := DbDictionary(g, exclude, map[], dense).value;
      forall p, c :: (p, c) in x.indexD <==> p in x.relations && c in x.relations[p]
  {
    var n := |g.records|;
    FoldOwned(g, exclude, dense, n);
    FoldChannels(g, exclude, dense, n);
    var x := DbDictionary(g, exclude, map[], dense).value;
    forall p, c ensures (p, c) in x.indexD <==> p in x.relations && c in x.relations[p] {
      KeptChildrenAreChannels(g, exclude, p, n);
    }
  }
}
