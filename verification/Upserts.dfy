/** Multi-row upsert statements over any table: one row at a time, failing as a whole. */
module Upserts {
  import opened Collections
  import opened Options

  /** Applies one row; None when it breaks a constraint of the table. */
  type Put<!S, !R> = (S, R) -> Option<S>

  predicate DistinctKeys<R, K(==)>(rows: seq<R>, key: R -> K) {
    forall i, j :: 0 <= i < j < |rows| ==> key(rows[i]) != key(rows[j])
  }

  function PutAll<S, R>(put: Put<S, R>, s: S, rows: seq<R>): Option<S> {
    if rows == [] then Some(s)
    else
      match put(s, rows[0])
      case None => None
      case Some(next) => PutAll(put, next, rows[1..])
  }

  /** INSERT ... ON CONFLICT DO UPDATE: refuses to touch the same key twice in one statement. */
  function Upsert<S, R, K(==)>(put: Put<S, R>, key: R -> K, s: S, rows: seq<R>): Option<S> {
    if DistinctKeys(rows, key) then PutAll(put, s, rows) else None
  }

  function UpsertChunks<S, R, K(==)>(put: Put<S, R>, key: R -> K, s: S, chunks: seq<seq<R>>): Option<S> {
    if chunks == [] then Some(s)
    else
      match Upsert(put, key, s, chunks[0])
      case None => None
      case Some(next) => UpsertChunks(put, key, next, chunks[1..])
  }

  ghost predicate ChunksDistinct<R, K>(chunks: seq<seq<R>>, key: R -> K) {
    forall c :: c in chunks ==> DistinctKeys(c, key)
  }

  lemma {:induction false} PutAllAppend<S, R>(put: Put<S, R>, s: S, a: seq<R>, b: seq<R>)
    ensures PutAll(put, s, a + b) ==
            match PutAll(put, s, a) case None => None case Some(mid) => PutAll(put, mid, b)
  {
    if a == [] {
      assert a + b == b;
    } else {
      assert (a + b)[1..] == a[1..] + b;
      match put(s, a[0])
      case None =>
      case Some(next) => PutAllAppend(put, next, a[1..], b);
    }
  }

  /** A chunked write is the row-by-row write of all rows, provided no chunk repeats a key. */
  lemma {:induction false} UpsertChunksIsPutAll<S, R, K>(put: Put<S, R>, key: R -> K, s: S, chunks: seq<seq<R>>)
    ensures UpsertChunks(put, key, s, chunks) ==
            if ChunksDistinct(chunks, key) then PutAll(put, s, Flatten(chunks)) else None
  {
    if chunks != [] {
      var first, rest := chunks[0], chunks[1..];
      assert chunks == [first] + rest;
      assert ChunksDistinct(chunks, key) <==> DistinctKeys(first, key) && ChunksDistinct(rest, key);
      PutAllAppend(put, s, first, Flatten(rest));
      match Upsert(put, key, s, first)
      case None =>
      case Some(next) => UpsertChunksIsPutAll(put, key, next, rest);
    }
  }

  /** With pairwise distinct keys the chunk size does not matter. */
  lemma ChunkSizeIrrelevant<S, R, K>(put: Put<S, R>, key: R -> K, s: S, rows: seq<R>, size: nat)
    requires size > 0 && DistinctKeys(rows, key)
    ensures UpsertChunks(put, key, s, Chunk(rows, size)) == PutAll(put, s, rows)
  {
    ChunkPartitions(rows, size);
    UpsertChunksIsPutAll(put, key, s, Chunk(rows, size));
    forall c | c in Chunk(rows, size)
      ensures DistinctKeys(c, key)
    {
      var lo, hi := ChunkIsSlice(rows, size, c);
    }
  }
}
