/** The summariser's first step: order the stored chunks by where they start in the
    document, then cut the ordered list into consecutive batches. */
module SummaryBatches {
  import opened Wrappers
  import opened Chunking

  /** The sort key `c.get("metadata", {}).get("start_char", 0)`; a record whose metadata is
      None has no key (looking one up raises). */
  function StartKey(c: StoredChunk): Option<int>
  {
    match c.metadata
    case None => None
    case Some(m) =>
      match m.startChar
      case None => Some(0)
      case Some(k) => Some(k)
  }

  predicate Keyed(cs: seq<StoredChunk>)
  {
    forall i | 0 <= i < |cs| :: StartKey(cs[i]).Some?
  }

  function Key(c: StoredChunk): int
    requires StartKey(c).Some?
  {
    StartKey(c).value
  }

  /** Non-decreasing keys. */
  predicate SortedByKey(cs: seq<StoredChunk>)
    requires Keyed(cs)
  {
    forall i, j | 0 <= i < j < |cs| :: Key(cs[i]) <= Key(cs[j])
  }

  /** Put `c` in front of the first element whose key is at least its own. */
  function Insert(c: StoredChunk, cs: seq<StoredChunk>): (r: seq<StoredChunk>)
    requires StartKey(c).Some? && Keyed(cs)
    ensures Keyed(r) && |r| == |cs| + 1
    ensures r[0] == c || (cs != [] && r[0] == cs[0])
  {
    if cs == [] || Key(c) <= Key(cs[0]) then [c] + cs
    else
      assert cs == [cs[0]] + cs[1..];
      [cs[0]] + Insert(c, cs[1..])
  }

  /** Python's stable `sorted(cs, key=start_char)`, as an insertion sort from the back. */
  function StableSort(cs: seq<StoredChunk>): (r: seq<StoredChunk>)
    requires Keyed(cs)
    ensures Keyed(r) && |r| == |cs|
  {
    if cs == [] then [] else Insert(cs[0], StableSort(cs[1..]))
  }

  /** The order the map step works in: sorted by key, or the stored order when some key
      lookup raises and the source falls back to the unsorted list. */
  function OrderedChunks(cs: seq<StoredChunk>): seq<StoredChunk>
  {
    if Keyed(cs) then StableSort(cs) else cs
  }

  lemma {:induction false} InsertSorted(c: StoredChunk, cs: seq<StoredChunk>)
    requires StartKey(c).Some? && Keyed(cs) && SortedByKey(cs)
    ensures SortedByKey(Insert(c, cs))
  {
    if cs != [] && Key(c) > Key(cs[0]) {
      var rest := Insert(c, cs[1..]);
      InsertSorted(c, cs[1..]);
      assert Key(cs[0]) <= Key(rest[0]);
      var r := [cs[0]] + rest;
      assert r == Insert(c, cs);
      forall i, j | 0 <= i < j < |r| ensures Key(r[i]) <= Key(r[j]) {
        if i == 0 {
          assert Key(rest[0]) <= Key(rest[j - 1]) || j == 1;
        } else {
          assert r[i] == rest[i - 1] && r[j] == rest[j - 1];
        }
      }
    }
  }

  /** The elements whose key is `v`, in order. */
  function WithKey(cs: seq<StoredChunk>, v: int): (r: seq<StoredChunk>)
    requires Keyed(cs)
    ensures |r| <= |cs|
  {
    if cs == [] then []
    else (if Key(cs[0]) == v then [cs[0]] else []) + WithKey(cs[1..], v)
  }

  lemma {:induction false} InsertWithKey(c: StoredChunk, cs: seq<StoredChunk>, v: int)
    requires StartKey(c).Some? && Keyed(cs)
    ensures WithKey(Insert(c, cs), v) == (if Key(c) == v then [c] else []) + WithKey(cs, v)
  {
    if cs == [] || Key(c) <= Key(cs[0]) {
      WithKeyCons(c, cs, v);
    } else {
      var rest := Insert(c, cs[1..]);
      assert Insert(c, cs) == [cs[0]] + rest;
      InsertWithKey(c, cs[1..], v);
      WithKeyCons(cs[0], rest, v);
      assert cs == [cs[0]] + cs[1..];
      WithKeyCons(cs[0], cs[1..], v);
      if Key(c) == v {
        assert Key(cs[0]) != v;
      } else {
        assert [] + WithKey(cs, v) == WithKey(cs, v);
      }
    }
  }

  lemma WithKeyCons(x: StoredChunk, ys: seq<StoredChunk>, v: int)
    requires StartKey(x).Some? && Keyed(ys)
    ensures Keyed([x] + ys)
    ensures WithKey([x] + ys, v) == (if Key(x) == v then [x] else []) + WithKey(ys, v)
  {
    assert ([x] + ys)[0] == x && ([x] + ys)[1..] == ys;
  }

  /** The result of the sort is sorted by key, is a permutation of the input, and keeps the
      input order among elements with the same key (the stability of Python's `sorted`). */
  lemma {:induction false} StableSortSpec(cs: seq<StoredChunk>)
    requires Keyed(cs)
    ensures SortedByKey(StableSort(cs))
    ensures multiset(StableSort(cs)) == multiset(cs)
    ensures forall v :: WithKey(StableSort(cs), v) == WithKey(cs, v)
  {
    StableSortSorted(cs);
    StableSortPermutes(cs);
    forall v ensures WithKey(StableSort(cs), v) == WithKey(cs, v) {
      StableSortStable(cs, v);
    }
  }

  lemma {:induction false} StableSortSorted(cs: seq<StoredChunk>)
    requires Keyed(cs)
    ensures SortedByKey(StableSort(cs))
  {
    if cs != [] {
      StableSortSorted(cs[1..]);
      InsertSorted(cs[0], StableSort(cs[1..]));
    }
  }

  lemma {:induction false} StableSortPermutes(cs: seq<StoredChunk>)
    requires Keyed(cs)
    ensures multiset(StableSort(cs)) == multiset(cs)
  {
    if cs != [] {
      StableSortPermutes(cs[1..]);
      InsertPermutes(cs[0], StableSort(cs[1..]));
      assert cs == [cs[0]] + cs[1..];
    }
  }

  lemma {:induction false} InsertPermutes(c: StoredChunk, cs: seq<StoredChunk>)
    requires StartKey(c).Some? && Keyed(cs)
    ensures multiset(Insert(c, cs)) == multiset(cs) + multiset{c}
  {
    if cs != [] && Key(c) > Key(cs[0]) {
      InsertPermutes(c, cs[1..]);
      assert cs == [cs[0]] + cs[1..];
    }
  }

  lemma {:induction false} StableSortStable(cs: seq<StoredChunk>, v: int)
    requires Keyed(cs)
    ensures WithKey(StableSort(cs), v) == WithKey(cs, v)
  {
    if cs != [] {
      StableSortStable(cs[1..], v);
      InsertWithKey(cs[0], StableSort(cs[1..]), v);
    }
  }

  /** `[cs[i:i + size] for i in range(0, len(cs), size)]`. */
  function Batches<T>(cs: seq<T>, size: nat): (r: seq<seq<T>>)
    requires size > 0
    decreases |cs|
  {
    if cs == [] then []
    else if |cs| <= size then [cs]
    else [cs[..size]] + Batches(cs[size..], size)
  }

  /** There are `ceil(|cs| / size)` batches: just enough to hold every element. */
  lemma {:induction false} BatchCount<T>(cs: seq<T>, size: nat)
    requires size > 0
    ensures var n := |Batches(cs, size)|;
      |cs| <= n * size && (n > 0 ==> (n - 1) * size < |cs|)
    decreases |cs|
  {
    if |cs| > size {
      BatchCount(cs[size..], size);
      var m := |Batches(cs[size..], size)|;
      assert |Batches(cs, size)| == m + 1;
      assert (m + 1) * size == m * size + size;
    }
  }

  function Flatten<T>(bs: seq<seq<T>>): seq<T>
  {
    if bs == [] then [] else bs[0] + Flatten(bs[1..])
  }

  /** Batch `i` is exactly the slice `cs[i * size .. min((i + 1) * size, |cs|)]`: every batch
      but the last is full and the last is not empty. */
  lemma {:induction false} BatchesAreSlices<T>(cs: seq<T>, size: nat)
    requires size > 0
    ensures var bs := Batches(cs, size);
      forall i | 0 <= i < |bs| ::
        i * size < |cs| && bs[i] == cs[i * size..if (i + 1) * size < |cs| then (i + 1) * size else |cs|]
    decreases |cs|
  {
    var bs := Batches(cs, size);
    if |cs| > size {
      var rest := Batches(cs[size..], size);
      BatchesAreSlices(cs[size..], size);
      forall i | 0 <= i < |bs|
        ensures i * size < |cs| && bs[i] == cs[i * size..if (i + 1) * size < |cs| then (i + 1) * size else |cs|]
      {
        if i > 0 {
          ShiftBatch(cs, size, i, rest[i - 1]);
        }
      }
    }
  }

  /** One step of the induction above: batch `i - 1` of the tail is batch `i` of the whole. */
  lemma ShiftBatch<T>(cs: seq<T>, size: nat, i: nat, b: seq<T>)
    requires 0 < size < |cs| && i > 0
    requires var t := cs[size..];
      (i - 1) * size < |t| && b == t[(i - 1) * size..if i * size < |t| then i * size else |t|]
    ensures i * size < |cs| && b == cs[i * size..if (i + 1) * size < |cs| then (i + 1) * size else |cs|]
  {
    var t := cs[size..];
    var a := (i - 1) * size;
    var b := i * size;
    var c := (i + 1) * size;
    assert b == a + size && c == b + size;
    var hiT := if b < |t| then b else |t|;
    var hi := if c < |cs| then c else |cs|;
    assert hi == size + hiT;
    assert t[a..hiT] == cs[size + a..size + hiT];
  }

  /** Joining the batches back together gives the list that was cut. */
  lemma {:induction false} FlattenBatches<T>(cs: seq<T>, size: nat)
    requires size > 0
    ensures Flatten(Batches(cs, size)) == cs
    decreases |cs|
  {
    if |cs| > size {
      FlattenBatches(cs[size..], size);
      assert cs == cs[..size] + cs[size..];
    } else if cs != [] {
      assert Flatten([cs]) == cs + [];
    }
  }

  /** Every batch has between 1 and `size` elements, and every batch but the last has
      exactly `size`. */
  lemma BatchSizes<T>(cs: seq<T>, size: nat)
    requires size > 0
    ensures var bs := Batches(cs, size);
      (forall i | 0 <= i < |bs| :: 1 <= |bs[i]| <= size)
      && (forall i | 0 <= i < |bs| - 1 :: |bs[i]| == size)
  {
    BatchesAreSlices(cs, size);
    var bs := Batches(cs, size);
    forall i | 0 <= i < |bs| - 1 ensures |bs[i]| == size {
      assert (i + 1) * size < |cs| && bs[i + 1] != [];
    }
  }
}
