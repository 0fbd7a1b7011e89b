/** util/chunk.ts, util/group-by.ts and the list-to-list and list-to-Map conversions around them. */
module Collections {

  /** Consecutive slices of at most `size` items. */
  function Chunk<T>(items: seq<T>, size: nat): seq<seq<T>>
    requires size > 0
  {
    if items == [] then []
    else if |items| <= size then [items]
    else [items[..size]] + Chunk(items[size..], size)
  }

  method ChunkItems<T>(items: seq<T>, size: nat) returns (chunks: seq<seq<T>>)
    requires size > 0
    ensures chunks == Chunk(items, size)
  {
    if |items| == 0 {
      return [];
    }
    chunks := [];
    var i := 0;
    while i < |items|
      invariant 0 <= i
      invariant i < |items| ==> chunks + Chunk(items[i..], size) == Chunk(items, size)
      invariant i >= |items| ==> chunks == Chunk(items, size)
    {
      var end := if i + size <= |items| then i + size else |items|;
      assert items[i..][..end - i] == items[i..end] && items[i..][end - i..] == items[end..];
      assert end == |items| ==> items[i..end] == items[i..];
      chunks := chunks + [items[i..end]];
      i := i + size;
    }
  }

  function Flatten<T>(chunks: seq<seq<T>>): seq<T> {
    if chunks == [] then [] else chunks[0] + Flatten(chunks[1..])
  }

  /** Chunking loses, repeats and reorders nothing, and makes no empty or oversized chunk. */
  lemma {:induction false} ChunkPartitions<T>(items: seq<T>, size: nat)
    requires size > 0
    ensures Flatten(Chunk(items, size)) == items
    ensures forall c :: c in Chunk(items, size) ==> 0 < |c| <= size
  {
    if |items| > size {
      ChunkPartitions(items[size..], size);
      assert items == items[..size] + items[size..];
    } else if items != [] {
      assert Chunk(items, size)[1..] == [];
    }
  }

  lemma SliceOfRest<T>(items: seq<T>, n: nat, lo: nat, hi: nat)
    requires n <= |items| && lo <= hi <= |items| - n
    ensures items[n..][lo..hi] == items[n + lo..n + hi]
  {
    assert forall i :: 0 <= i < hi - lo ==> items[n..][lo..hi][i] == items[n + lo + i];
  }

  /** A chunk is a run of consecutive items. */
  lemma {:induction false} ChunkIsSlice<T>(items: seq<T>, size: nat, c: seq<T>) returns (lo: nat, hi: nat)
    requires size > 0 && c in Chunk(items, size)
    ensures lo <= hi <= |items| && c == items[lo..hi]
  {
    if |items| <= size {
      lo, hi := 0, |items|;
    } else if c == items[..size] {
      lo, hi := 0, size;
    } else {
      lo, hi := ChunkIsSlice(items[size..], size, c);
      SliceOfRest(items, size, lo, hi);
      lo, hi := size + lo, size + hi;
    }
  }

  function Map<T, U>(f: T -> U, items: seq<T>): (r: seq<U>)
    ensures |r| == |items| && forall i :: 0 <= i < |items| ==> r[i] == f(items[i])
  {
    seq(|items|, i requires 0 <= i < |items| => f(items[i]))
  }

  /** Converting every item commutes with cutting into chunks. */
  lemma {:induction false} ChunkOfMap<T, U>(f: T -> U, items: seq<T>, size: nat)
    requires size > 0
    ensures |Chunk(Map(f, items), size)| == |Chunk(items, size)|
    ensures forall i :: 0 <= i < |Chunk(items, size)| ==>
              Chunk(Map(f, items), size)[i] == Map(f, Chunk(items, size)[i])
  {
    if |items| > size {
      ChunkOfMap(f, items[size..], size);
      assert Map(f, items)[size..] == Map(f, items[size..]);
      assert Map(f, items)[..size] == Map(f, items[..size]);
    }
  }

  /** The items with a given key, in order. */
  function Having<T, K(==)>(items: seq<T>, key: T -> K, k: K): seq<T> {
    if items == [] then []
    else
      var n := |items| - 1;
      Having(items[..n], key, k) + if key(items[n]) == k then [items[n]] else []
  }

  method GroupBy<T, K(==)>(items: seq<T>, key: T -> K) returns (groups: map<K, seq<T>>)
    ensures forall k :: k in groups <==> Having(items, key, k) != []
    ensures forall k :: k in groups ==> groups[k] == Having(items, key, k)
  {
    groups := map[];
    for i := 0 to |items|
      invariant forall k :: k in groups <==> Having(items[..i], key, k) != []
      invariant forall k :: k in groups ==> groups[k] == Having(items[..i], key, k)
    {
      var k := key(items[i]);
      assert items[..i + 1][..i] == items[..i];
      assert Having(items[..i + 1], key, k) == Having(items[..i], key, k) + [items[i]];
      assert forall j :: j != k ==> Having(items[..i + 1], key, j) == Having(items[..i], key, j);
      groups := groups[k := (if k in groups then groups[k] else []) + [items[i]]];
    }
    assert items[..|items|] == items;
  }

  // ----- map(...).filter(...) -----

  /** The results of a conversion that may yield nothing for an item. */
  function FlatMap<E, T, U>(f: (E, T) -> seq<U>, env: E, items: seq<T>): seq<U> {
    if items == [] then [] else FlatMap(f, env, items[..|items| - 1]) + f(env, items[|items| - 1])
  }

  lemma {:induction false} FlatMapCongruent<E, T, U>(f: (E, T) -> seq<U>, a: E, b: E, items: seq<T>)
    requires forall x :: x in items ==> f(a, x) == f(b, x)
    ensures FlatMap(f, a, items) == FlatMap(f, b, items)
  {
    if items != [] {
      FlatMapCongruent(f, a, b, items[..|items| - 1]);
    }
  }

  lemma {:induction false} FlatMapOfMap<E, S, T, U>(f: (E, S) -> seq<U>, g: (E, T) -> seq<U>, h: S -> T, env: E,
                                                    items: seq<S>)
    requires forall x :: x in items ==> f(env, x) == g(env, h(x))
    ensures FlatMap(f, env, items) == FlatMap(g, env, Map(h, items))
  {
    if items != [] {
      FlatMapOfMap(f, g, h, env, items[..|items| - 1]);
      assert Map(h, items)[..|items| - 1] == Map(h, items[..|items| - 1]);
    }
  }

  /** When every item yields one result, nothing is dropped and the positions agree. */
  lemma {:induction false} FlatMapSingletons<E, T, U>(f: (E, T) -> seq<U>, env: E, items: seq<T>)
    requires forall x :: x in items ==> |f(env, x)| == 1
    ensures |FlatMap(f, env, items)| == |items|
    ensures forall i :: 0 <= i < |items| ==> f(env, items[i]) == [FlatMap(f, env, items)[i]]
  {
    if items != [] {
      FlatMapSingletons(f, env, items[..|items| - 1]);
    }
  }

  lemma {:induction false} FlatMapMembers<E, T, U>(f: (E, T) -> seq<U>, env: E, items: seq<T>, u: U)
    ensures u in FlatMap(f, env, items) <==> exists x :: x in items && u in f(env, x)
  {
    if items != [] {
      var n := |items| - 1;
      FlatMapMembers(f, env, items[..n], u);
      assert forall x :: x in items <==> x in items[..n] || x == items[n];
    }
  }

  // ----- new Map(pairs) -----

  /** The last value given to each key. */
  function Overlay<R, K, V>(key: R -> K, value: R -> V, rows: seq<R>): map<K, V> {
    if rows == [] then map[]
    else
      var last := rows[|rows| - 1];
      Overlay(key, value, rows[..|rows| - 1])[key(last) := value(last)]
  }

  lemma {:induction false} OverlayKeys<R, K, V>(key: R -> K, value: R -> V, rows: seq<R>, k: K)
    ensures k in Overlay(key, value, rows) ==>
      exists r :: r in rows && key(r) == k && value(r) == Overlay(key, value, rows)[k]
    ensures (exists r :: r in rows && key(r) == k) ==> k in Overlay(key, value, rows)
  {
    if rows != [] {
      var n := |rows| - 1;
      OverlayKeys(key, value, rows[..n], k);
      assert forall r :: r in rows <==> r in rows[..n] || r == rows[n];
    }
  }

  /** The last row with its key decides. */
  lemma {:induction false} OverlayLast<R, K, V>(key: R -> K, value: R -> V, rows: seq<R>, i: nat)
    requires i < |rows| && forall j :: i < j < |rows| ==> key(rows[j]) != key(rows[i])
    ensures key(rows[i]) in Overlay(key, value, rows) && Overlay(key, value, rows)[key(rows[i])] == value(rows[i])
  {
    var n := |rows| - 1;
    if i < n {
      OverlayLast(key, value, rows[..n], i);
    }
  }

  ghost predicate NoDuplicates<T>(s: seq<T>) {
    forall i, j :: 0 <= i < j < |s| ==> s[i] != s[j]
  }
}
