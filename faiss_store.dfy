/** The FAISS vector-store façade of src/vectorstores/faiss_store.py.
    The FAISS engine is a finite map from id to document; embedding and
    similarity ranking are opaque functions; the index directory is a
    shared object holding the last saved snapshot. */
module FaissStore {
  import opened Common
  import opened Uuids
  import opened DocumentLoader

  type Id = string

  /** The documents the engine holds, by docstore id. */
  type Index = map<Id, Document>

  /** The content of FAISS_INDEX_PATH: missing or empty, present but not
      loadable, or a snapshot written by `save_local`. */
  datatype Snapshot = Empty | Unreadable | Saved(index: Index)

  /** Whether the embedding provider succeeds on a batch of documents. */
  type Embedder = seq<Document> -> bool

  /** The text of the placeholder document ("初始化文档"). */
  const PlaceholderText: string := "\U{521D}\U{59CB}\U{5316}\U{6587}\U{6863}"

  /** `FAISS.from_texts([PlaceholderText])`: one document stored under a fresh id. */
  function PlaceholderStore(u: Id): Index {
    map[u := Document(PlaceholderText, map[])]
  }

  /** `doc.metadata.get("source", "")`. */
  function SourceOf(d: Document): string {
    if "source" in d.metadata then d.metadata["source"] else ""
  }

  predicate NoUnderscore(s: string) {
    forall i :: 0 <= i < |s| ==> s[i] != '_'
  }

  // ---------------------------------------------------------------------------
  // The engine, as LangChain's FAISS wrapper behaves

  /** The map from each id to the document at the same position. */
  function Pairs(ids: seq<Id>, docs: seq<Document>): Index
    requires |ids| == |docs|
    decreases |ids|
  {
    if ids == [] then map[]
    else Pairs(ids[..|ids| - 1], docs[..|docs| - 1])[ids[|ids| - 1] := docs[|docs| - 1]]
  }

  /** The map holds exactly the given ids. */
  lemma {:induction false} PairsKeys(ids: seq<Id>, docs: seq<Document>)
    requires |ids| == |docs|
    ensures Pairs(ids, docs).Keys == set x | x in ids
    decreases |ids|
  {
    if ids != [] {
      var n := |ids| - 1;
      PairsKeys(ids[..n], docs[..n]);
      assert ids == ids[..n] + [ids[n]];
      assert (set x | x in ids) == (set x | x in ids[..n]) + {ids[n]};
    }
  }

  /** Distinct ids are each mapped to the document at their own position. */
  lemma {:induction false} PairsValues(ids: seq<Id>, docs: seq<Document>)
    requires |ids| == |docs| && Distinct(ids)
    ensures forall i :: 0 <= i < |ids| ==> ids[i] in Pairs(ids, docs) && Pairs(ids, docs)[ids[i]] == docs[i]
    decreases |ids|
  {
    if ids != [] {
      var n := |ids| - 1;
      assert forall i :: 0 <= i < n ==> ids[..n][i] == ids[i] && docs[..n][i] == docs[i];
      PairsValues(ids[..n], docs[..n]);
      var m := Pairs(ids[..n], docs[..n]);
      forall i | 0 <= i < |ids|
        ensures ids[i] in Pairs(ids, docs) && Pairs(ids, docs)[ids[i]] == docs[i]
      {
        if i < n {
          assert ids[i] != ids[n];
          assert ids[..n][i] in m && m[ids[..n][i]] == docs[..n][i];
        }
      }
    }
  }

  /** `after` is `before` with the pairs (ids[i], docs[i]) added: the ids are
      distinct and new, and every document already stored keeps its id. */
  predicate Extends(before: Index, after: Index, ids: seq<Id>, docs: seq<Document>) {
    && |ids| == |docs|
    && Distinct(ids)
    && (forall i :: 0 <= i < |ids| ==> ids[i] !in before)
    && after.Keys == before.Keys + (set x | x in ids)
    && (forall k :: k in before ==> after[k] == before[k])
    && (forall i :: 0 <= i < |ids| ==> after[ids[i]] == docs[i])
  }

  /** `vector_store.add_documents(documents=docs, ids=ids)`: the batch is
      embedded, then refused when the counts differ, an id repeats, or an
      id is already stored; otherwise the pairs are added. */
  function EngineAdd(ix: Index, ids: seq<Id>, docs: seq<Document>, embedOk: Embedder): Result<Index> {
    if !embedOk(docs) then Err(EmbeddingFailed)
    else if |ids| != |docs| then Err(CountMismatch(|docs|, |ids|))
    else if !Distinct(ids) then Err(DuplicateIds)
    else if exists i :: 0 <= i < |ids| && ids[i] in ix then Err(IdsAlreadyStored)
    else Ok(ix + Pairs(ids, docs))
  }

  /** The engine accepts a batch exactly when it embeds, its counts agree and
      its ids are distinct and new; it then adds exactly those pairs. */
  lemma EngineAddSpec(ix: Index, ids: seq<Id>, docs: seq<Document>, embedOk: Embedder)
    ensures var r := EngineAdd(ix, ids, docs, embedOk);
            (r.Ok? <==> embedOk(docs) && |ids| == |docs| && Distinct(ids) && forall i :: 0 <= i < |ids| ==> ids[i] !in ix) &&
            (r.Ok? ==> Extends(ix, r.value, ids, docs))
  {
    if EngineAdd(ix, ids, docs, embedOk).Ok? {
      PairsKeys(ids, docs);
      PairsValues(ids, docs);
    }
  }

  /** `vector_store.delete(ids=ids)`: refused when an id is not stored;
      otherwise every listed id is removed, however often it is listed. */
  function EngineDelete(ix: Index, ids: seq<Id>): (r: Result<Index>)
    ensures r.Err? <==> exists i :: 0 <= i < |ids| && ids[i] !in ix
    ensures r.Ok? ==> r.value.Keys == ix.Keys - (set x | x in ids)
    ensures r.Ok? ==> forall k :: k in r.value ==> r.value[k] == ix[k]
  {
    if exists i :: 0 <= i < |ids| && ids[i] !in ix then Err(MissingIds)
    else Ok(ix - (set x | x in ids))
  }

  lemma ExtendsNothing(ix: Index)
    ensures Extends(ix, ix, [], [])
  {
    assert (set x: Id | x in []) == {};
  }

  lemma ComposeDistinct(a: Index, b: Index, c: Index, i1: seq<Id>, d1: seq<Document>, i2: seq<Id>, d2: seq<Document>)
    requires Extends(a, b, i1, d1) && Extends(b, c, i2, d2)
    ensures Distinct(i1 + i2)
  {
    var ids := i1 + i2;
    forall i, j | 0 <= i < j < |ids|
      ensures ids[i] != ids[j]
    {
      if i < |i1| <= j {
        assert ids[i] == i1[i] && ids[j] == i2[j - |i1|];
        assert ids[i] in b && ids[j] !in b;
      }
    }
  }

  lemma ComposeValues(a: Index, b: Index, c: Index, i1: seq<Id>, d1: seq<Document>, i2: seq<Id>, d2: seq<Document>)
    requires Extends(a, b, i1, d1) && Extends(b, c, i2, d2)
    ensures forall i :: 0 <= i < |i1 + i2| ==> c[(i1 + i2)[i]] == (d1 + d2)[i]
  {
    var ids, docs := i1 + i2, d1 + d2;
    forall i | 0 <= i < |ids|
      ensures c[ids[i]] == docs[i]
    {
      if i < |i1| {
        assert ids[i] == i1[i] && docs[i] == d1[i];
        assert i1[i] in b;
      } else {
        assert ids[i] == i2[i - |i1|] && docs[i] == d2[i - |i1|];
      }
    }
  }

  lemma ComposeFresh(a: Index, b: Index, c: Index, i1: seq<Id>, d1: seq<Document>, i2: seq<Id>, d2: seq<Document>)
    requires Extends(a, b, i1, d1) && Extends(b, c, i2, d2)
    ensures forall i :: 0 <= i < |i1 + i2| ==> (i1 + i2)[i] !in a
  {
    var ids := i1 + i2;
    forall i | 0 <= i < |ids|
      ensures ids[i] !in a
    {
      if i < |i1| {
        assert ids[i] == i1[i];
      } else {
        assert ids[i] == i2[i - |i1|];
      }
    }
  }

  lemma ComposeKeys(a: Index, b: Index, c: Index, i1: seq<Id>, d1: seq<Document>, i2: seq<Id>, d2: seq<Document>)
    requires Extends(a, b, i1, d1) && Extends(b, c, i2, d2)
    ensures c.Keys == a.Keys + (set x | x in i1 + i2)
    ensures forall k :: k in a ==> c[k] == a[k]
  {
    assert (set x | x in i1 + i2) == (set x | x in i1) + (set x | x in i2);
  }

  /** Two additions in a row add the concatenated pairs. */
  lemma ExtendsCompose(a: Index, b: Index, c: Index, i1: seq<Id>, d1: seq<Document>, i2: seq<Id>, d2: seq<Document>)
    requires Extends(a, b, i1, d1) && Extends(b, c, i2, d2)
    ensures Extends(a, c, i1 + i2, d1 + d2)
  {
    ComposeDistinct(a, b, c, i1, d1, i2, d2);
    ComposeValues(a, b, c, i1, d1, i2, d2);
    ComposeFresh(a, b, c, i1, d1, i2, d2);
    ComposeKeys(a, b, c, i1, d1, i2, d2);
  }

  // ---------------------------------------------------------------------------
  // Batched insertion

  /** How the batch loop of `add_documents` ends: every batch committed, or
      an exception raised by batch `done` after the earlier ones were committed. */
  datatype BatchOutcome = Committed(index: Index) | Failed(index: Index, done: nat, error: Error)

  function Shift(o: BatchOutcome, j: nat): BatchOutcome {
    match o
    case Committed(_) => o
    case Failed(partial, done, e) => Failed(partial, done + j, e)
  }

  lemma ShiftTwice(o: BatchOutcome, j: nat)
    ensures Shift(Shift(o, 1), j) == Shift(o, j + 1)
  {
  }

  /** `for batch, batch_ids in zip(batches, id_batches): add_documents(batch, batch_ids)`. */
  function InsertBatches(ix: Index, docBatches: seq<seq<Document>>, idBatches: seq<seq<Id>>, embedOk: Embedder)
    : BatchOutcome
    decreases |docBatches|
  {
    if docBatches == [] || idBatches == [] then Committed(ix)
    else
      var added := EngineAdd(ix, idBatches[0], docBatches[0], embedOk);
      if added.Err? then Failed(ix, 0, added.error)
      else Shift(InsertBatches(added.value, docBatches[1..], idBatches[1..], embedOk), 1)
  }

  lemma InsertBatchesFrom(ix: Index, docBatches: seq<seq<Document>>, idBatches: seq<seq<Id>>, embedOk: Embedder, j: nat)
    requires j < |docBatches| && j < |idBatches|
    ensures var added := EngineAdd(ix, idBatches[j], docBatches[j], embedOk);
            InsertBatches(ix, docBatches[j..], idBatches[j..], embedOk) ==
            if added.Err? then Failed(ix, 0, added.error)
            else Shift(InsertBatches(added.value, docBatches[j + 1..], idBatches[j + 1..], embedOk), 1)
  {
    assert docBatches[j..][0] == docBatches[j] && docBatches[j..][1..] == docBatches[j + 1..];
    assert idBatches[j..][0] == idBatches[j] && idBatches[j..][1..] == idBatches[j + 1..];
  }

  /** When every batch is committed, all the pairs of all the batches were added. */
  lemma {:induction false} InsertCommitted(ix: Index, docBatches: seq<seq<Document>>, idBatches: seq<seq<Id>>, embedOk: Embedder)
    requires |docBatches| == |idBatches|
    requires InsertBatches(ix, docBatches, idBatches, embedOk).Committed?
    ensures Extends(ix, InsertBatches(ix, docBatches, idBatches, embedOk).index, Concat(idBatches), Concat(docBatches))
    decreases |docBatches|
  {
    if docBatches == [] {
      ExtendsNothing(ix);
    } else {
      EngineAddSpec(ix, idBatches[0], docBatches[0], embedOk);
      var next := EngineAdd(ix, idBatches[0], docBatches[0], embedOk).value;
      InsertCommitted(next, docBatches[1..], idBatches[1..], embedOk);
      ExtendsCompose(ix, next, InsertBatches(ix, docBatches, idBatches, embedOk).index,
                     idBatches[0], docBatches[0], Concat(idBatches[1..]), Concat(docBatches[1..]));
    }
  }

  lemma ConcatStep<T>(ss: seq<seq<T>>, d: nat)
    requires d < |ss|
    ensures Concat(ss[..d + 1]) == ss[0] + Concat(ss[1..][..d])
  {
    assert ss[..d + 1] == [ss[0]] + ss[1..][..d];
    assert ss[..d + 1][1..] == ss[1..][..d];
  }

  /** When batch `done` fails, exactly the pairs of the batches before it were added. */
  lemma {:induction false} InsertFailed(ix: Index, docBatches: seq<seq<Document>>, idBatches: seq<seq<Id>>, embedOk: Embedder)
    requires InsertBatches(ix, docBatches, idBatches, embedOk).Failed?
    ensures var o := InsertBatches(ix, docBatches, idBatches, embedOk);
            o.done < |docBatches| && o.done < |idBatches| &&
            Extends(ix, o.index, Concat(idBatches[..o.done]), Concat(docBatches[..o.done]))
    decreases |docBatches|
  {
    var o := InsertBatches(ix, docBatches, idBatches, embedOk);
    var added := EngineAdd(ix, idBatches[0], docBatches[0], embedOk);
    if added.Err? {
      ExtendsNothing(ix);
      assert docBatches[..0] == [] && idBatches[..0] == [];
    } else {
      EngineAddSpec(ix, idBatches[0], docBatches[0], embedOk);
      var next := added.value;
      var rest := InsertBatches(next, docBatches[1..], idBatches[1..], embedOk);
      assert o == Shift(rest, 1);
      InsertFailed(next, docBatches[1..], idBatches[1..], embedOk);
      var d := rest.done;
      ConcatStep(docBatches, d);
      ConcatStep(idBatches, d);
      ExtendsCompose(ix, next, o.index, idBatches[0], docBatches[0],
                     Concat(idBatches[1..][..d]), Concat(docBatches[1..][..d]));
    }
  }

  /** What `add_documents(documents, batch_size, ids)` returns or raises, the
      engine's content after it, and the snapshot after it; `ids` are the
      ids supplied or generated. */
  function AddOutcome(ix: Index, disk: Snapshot, docs: seq<Document>, ids: seq<Id>, batchSize: int, embedOk: Embedder)
    : (Result<bool>, Index, Snapshot)
  {
    if docs == [] then (Ok(false), ix, disk)
    else if |docs| != |ids| then (Err(CountMismatch(|docs|, |ids|)), ix, disk)
    else if batchSize == 0 then (Err(ZeroBatchSize), ix, disk)
    else if batchSize < 0 then (Ok(true), ix, Saved(ix))
    else match InsertBatches(ix, Slices(docs, batchSize), Slices(ids, batchSize), embedOk)
      case Committed(final) => (Ok(true), final, Saved(final))
      case Failed(partial, _, e) => (Err(e), partial, disk)
  }

  /** An empty document list returns False and touches neither the engine nor the snapshot. */
  lemma AddNothing(ix: Index, disk: Snapshot, ids: seq<Id>, batchSize: int, embedOk: Embedder)
    ensures AddOutcome(ix, disk, [], ids, batchSize, embedOk) == (Ok(false), ix, disk)
  {
  }

  /** A count mismatch and a zero batch size raise before any batch is inserted or saved. */
  lemma AddRejectsEarly(ix: Index, disk: Snapshot, docs: seq<Document>, ids: seq<Id>, batchSize: int, embedOk: Embedder)
    requires docs != [] && (|docs| != |ids| || batchSize == 0)
    ensures var o := AddOutcome(ix, disk, docs, ids, batchSize, embedOk);
            o.0.Err? && o.1 == ix && o.2 == disk
    ensures |docs| != |ids| ==> AddOutcome(ix, disk, docs, ids, batchSize, embedOk).0 == Err(CountMismatch(|docs|, |ids|))
  {
  }

  /** A successful add with a positive batch size stores docs[i] under ids[i]
      for every i, keeps every stored document, and saves what it holds. */
  lemma AddCommitsAll(ix: Index, disk: Snapshot, docs: seq<Document>, ids: seq<Id>, batchSize: int, embedOk: Embedder)
    requires batchSize > 0
    requires AddOutcome(ix, disk, docs, ids, batchSize, embedOk).0 == Ok(true)
    ensures var o := AddOutcome(ix, disk, docs, ids, batchSize, embedOk);
            Extends(ix, o.1, ids, docs) && o.2 == Saved(o.1)
  {
    SlicesAligned(docs, ids, batchSize);
    SlicesConcat(docs, batchSize);
    SlicesConcat(ids, batchSize);
    InsertCommitted(ix, Slices(docs, batchSize), Slices(ids, batchSize), embedOk);
  }

  /** A negative batch size makes no batch at all: True is returned and the
      unchanged store is saved, while none of the documents is stored. */
  lemma AddNegativeBatchStoresNothing(ix: Index, disk: Snapshot, docs: seq<Document>, ids: seq<Id>, batchSize: int, embedOk: Embedder)
    requires docs != [] && |docs| == |ids| && batchSize < 0
    ensures AddOutcome(ix, disk, docs, ids, batchSize, embedOk) == (Ok(true), ix, Saved(ix))
  {
  }

  /** When a batch fails, the batches before it stay in the engine but the
      snapshot is not rewritten: a whole number j of batches, short of all
      the documents, has been added. */
  lemma AddFailureKeepsEarlierBatches(ix: Index, disk: Snapshot, docs: seq<Document>, ids: seq<Id>, batchSize: int, embedOk: Embedder)
    requires batchSize > 0 && docs != [] && |docs| == |ids|
    requires AddOutcome(ix, disk, docs, ids, batchSize, embedOk).0.Err?
    ensures var o := AddOutcome(ix, disk, docs, ids, batchSize, embedOk);
            o.2 == disk &&
            exists j: nat :: j * batchSize < |docs| && Extends(ix, o.1, ids[..j * batchSize], docs[..j * batchSize])
  {
    var db, ib := Slices(docs, batchSize), Slices(ids, batchSize);
    InsertFailed(ix, db, ib, embedOk);
    var o := InsertBatches(ix, db, ib, embedOk);
    var j := o.done;
    BatchPrefix(docs, batchSize, j);
    BatchPrefix(ids, batchSize, j);
    assert Extends(ix, o.index, ids[..j * batchSize], docs[..j * batchSize]);
  }

  /** The first j slices, j short of all of them, hold the first j*size elements. */
  lemma BatchPrefix<T>(s: seq<T>, size: nat, j: nat)
    requires size > 0 && j < |Slices(s, size)|
    ensures j * size < |s| && Concat(Slices(s, size)[..j]) == s[..j * size]
  {
    LastSliceStart(s, size, j);
    SlicesPrefix(s, size, j);
  }

  /** A slice that is not the last begins before the end of the input. */
  lemma LastSliceStart<T>(s: seq<T>, size: nat, j: nat)
    requires size > 0 && j < |Slices(s, size)|
    ensures j * size < |s|
  {
    SlicesCount(s, size);
    var count := |Slices(s, size)|;
    var q, r := (|s| + size - 1) / size, (|s| + size - 1) % size;
    assert |s| + size - 1 == q * size + r;
    assert j <= q - 1;
    MulMonotone(j, q - 1, size);
    assert (q - 1) * size == q * size - size;
  }

  lemma {:induction false} MulMonotone(a: nat, b: nat, c: nat)
    requires a <= b
    ensures a * c <= b * c
    decreases b - a
  {
    if a < b {
      MulMonotone(a, b - 1, c);
      assert b * c == (b - 1) * c + c;
    }
  }

  // ---------------------------------------------------------------------------
  // Generated ids

  /** `f"{source}_{uuid}"` for a uuid without '_'. */
  predicate IsGeneratedId(id: Id, d: Document) {
    StartsWith(id, SourceOf(d) + "_") && NoUnderscore(id[|SourceOf(d)| + 1..])
  }

  /** An id `{source}_{uuid}` determines its source and its uuid. */
  lemma GeneratedIdParts(s1: string, u1: string, s2: string, u2: string)
    requires NoUnderscore(u1) && NoUnderscore(u2)
    requires s1 + "_" + u1 == s2 + "_" + u2
    ensures s1 == s2 && u1 == u2
  {
    var x := s1 + "_" + u1;
    assert x[|x| - |u1| - 1] == '_' && x[|x| - |u2| - 1] == '_';
    assert forall j :: |x| - |u1| <= j < |x| ==> x[j] == u1[j - (|x| - |u1|)];
    assert forall j :: |x| - |u2| <= j < |x| ==> x[j] == u2[j - (|x| - |u2|)];
    assert |u1| == |u2|;
    assert u1 == x[|x| - |u1|..] == u2;
    assert s1 == x[..|s1|] == s2;
  }

  // ---------------------------------------------------------------------------
  // Deletion

  /** What `delete(ids)` returns, the engine's content after it, and the snapshot. */
  function DeleteOutcome(ix: Index, disk: Snapshot, ids: seq<Id>): (Result<bool>, Index, Snapshot) {
    if ids == [] then (Ok(false), ix, disk)
    else match EngineDelete(ix, ids)
      case Err(_) => (Ok(false), ix, disk)
      case Ok(after) => (Ok(true), after, Saved(after))
  }

  /** `delete` returns True exactly when some ids are given and all are
      stored; then they are gone and the rest is saved; otherwise nothing changes. */
  lemma DeleteSpec(ix: Index, disk: Snapshot, ids: seq<Id>)
    ensures var o := DeleteOutcome(ix, disk, ids);
            (o.0 == Ok(true) <==> ids != [] && forall i :: 0 <= i < |ids| ==> ids[i] in ix) &&
            (o.0 == Ok(true) ==> o.1.Keys == ix.Keys - (set x | x in ids) && o.2 == Saved(o.1) &&
                                 forall k :: k in o.1 ==> o.1[k] == ix[k]) &&
            (o.0 != Ok(true) ==> o.0 == Ok(false) && o.1 == ix && o.2 == disk)
  {
  }

  /** `doc_id.startswith(f"{p}_")` for some given path p. */
  predicate MatchesAny(id: Id, paths: seq<string>) {
    exists k :: 0 <= k < |paths| && StartsWith(id, paths[k] + "_")
  }

  /** The stored ids that `delete_by_source(paths)` selects. */
  function MatchingIds(ix: Index, paths: seq<string>): set<Id> {
    set id | id in ix && MatchesAny(id, paths)
  }

  /** The ids of `ids` that start with `p + "_"`, in order. */
  function MatchesOf(p: string, ids: seq<Id>): seq<Id>
    decreases |ids|
  {
    if ids == [] then []
    else
      var last := ids[|ids| - 1];
      MatchesOf(p, ids[..|ids| - 1]) + (if StartsWith(last, p + "_") then [last] else [])
  }

  /** `ids_to_delete` after the nested loops over the paths and the stored ids. */
  function CollectMatches(paths: seq<string>, ids: seq<Id>): seq<Id>
    decreases |paths|
  {
    if paths == [] then [] else CollectMatches(paths[..|paths| - 1], ids) + MatchesOf(paths[|paths| - 1], ids)
  }

  lemma {:induction false} MatchesOfSpec(p: string, ids: seq<Id>)
    ensures forall x :: x in MatchesOf(p, ids) <==> x in ids && StartsWith(x, p + "_")
    decreases |ids|
  {
    if ids != [] {
      MatchesOfSpec(p, ids[..|ids| - 1]);
      assert ids == ids[..|ids| - 1] + [ids[|ids| - 1]];
    }
  }

  /** The collected ids are exactly the given ids that match some path. */
  lemma {:induction false} CollectMatchesSpec(paths: seq<string>, ids: seq<Id>)
    ensures forall x :: x in CollectMatches(paths, ids) <==> x in ids && MatchesAny(x, paths)
    decreases |paths|
  {
    if paths != [] {
      var n := |paths| - 1;
      CollectMatchesSpec(paths[..n], ids);
      MatchesOfSpec(paths[n], ids);
      forall x
        ensures MatchesAny(x, paths) <==> MatchesAny(x, paths[..n]) || StartsWith(x, paths[n] + "_")
      {
        if MatchesAny(x, paths) {
          var k :| 0 <= k < |paths| && StartsWith(x, paths[k] + "_");
          if k < n {
            assert paths[..n][k] == paths[k];
          }
        }
        if MatchesAny(x, paths[..n]) {
          var k :| 0 <= k < n && StartsWith(x, paths[..n][k] + "_");
          assert paths[..n][k] == paths[k];
        }
      }
    }
  }

  /** What `delete_by_source(paths)` returns, the engine's content after it, and the snapshot. */
  function DeleteBySourceOutcome(ix: Index, disk: Snapshot, paths: seq<string>): (Result<bool>, Index, Snapshot) {
    var m := MatchingIds(ix, paths);
    if paths == [] || m == {} then (Ok(false), ix, disk)
    else (Ok(true), ix - m, Saved(ix - m))
  }

  /** `delete_by_source` removes exactly the stored ids that start with
      `p + "_"` for a given p, keeps every other document, and saves; it
      returns False with no change when no path is given or nothing matches. */
  lemma DeleteBySourceSpec(ix: Index, disk: Snapshot, paths: seq<string>)
    ensures var o := DeleteBySourceOutcome(ix, disk, paths);
            (forall id :: id in o.1 <==> id in ix && (o.0 == Ok(false) || !MatchesAny(id, paths))) &&
            (forall id :: id in o.1 ==> o.1[id] == ix[id]) &&
            (o.0 == Ok(true) <==> exists id :: id in ix && MatchesAny(id, paths)) &&
            (o.0 == Ok(true) ==> o.2 == Saved(o.1)) &&
            (o.0 != Ok(true) ==> o.0 == Ok(false) && o.2 == disk)
  {
    var o := DeleteBySourceOutcome(ix, disk, paths);
    var m := MatchingIds(ix, paths);
    if exists id :: id in ix && MatchesAny(id, paths) {
      var id :| id in ix && MatchesAny(id, paths);
      assert id in m;
    }
  }

  /** Every generated id is selected by `delete_by_source` on its own source. */
  lemma GeneratedIdMatchesSource(d: Document, u: string)
    ensures MatchesAny(SourceOf(d) + "_" + u, [SourceOf(d)])
  {
    var s := SourceOf(d);
    assert (s + "_" + u)[..|s + "_"|] == s + "_";
    assert [s][0] + "_" == s + "_";
  }

  /** The prefix rule over-matches: when source q starts with `p + "_"`
      (as `a_b.txt` does for `a`), deleting source p also deletes every
      document stored under an id generated for q. */
  lemma PrefixOverMatch(ix: Index, disk: Snapshot, p: string, q: string, u: string)
    requires StartsWith(q, p + "_") && q + "_" + u in ix
    ensures MatchesAny(q + "_" + u, [p])
    ensures var o := DeleteBySourceOutcome(ix, disk, [p]);
            o.0 == Ok(true) && q + "_" + u !in o.1
  {
    var id := q + "_" + u;
    var pre := p + "_";
    assert id[..|pre|] == q[..|pre|];
    assert [p][0] + "_" == pre;
    assert id in MatchingIds(ix, [p]);
  }

  /** Overlapping paths put one id into the delete list twice. */
  lemma OverlappingPathsRepeatIds()
    ensures CollectMatches(["a", "a_b.txt"], ["a_b.txt_0"]) == ["a_b.txt_0", "a_b.txt_0"]
  {
    var id := "a_b.txt_0";
    assert id[..2] == "a_";
    assert id[..8] == "a_b.txt_";
    assert ["a", "a_b.txt"][..1] == ["a"];
    var noPaths: seq<string> := [];
    var noIds: seq<Id> := [];
    assert ["a"][..0] == noPaths;
    assert [id][..0] == noIds;
  }

  /** The id loop of `add_documents`: `f"{source}_{uuid}"` for each document, in order. */
  method GenerateIds(documents: seq<Document>, uuids: UuidSource) returns (generated: seq<Id>)
    requires uuids.Valid()
    modifies uuids
    ensures uuids.Valid()
    ensures |generated| == |documents| && Distinct(generated)
    ensures forall i :: 0 <= i < |generated| ==>
              IsGeneratedId(generated[i], documents[i]) && MatchesAny(generated[i], [SourceOf(documents[i])]) &&
              generated[i][|SourceOf(documents[i])| + 1..] in uuids.issued - old(uuids.issued)
  {
    generated := [];
    ghost var tails: seq<string> := [];
    for i := 0 to |documents|
      modifies uuids
      invariant uuids.Valid() && old(uuids.issued) <= uuids.issued
      invariant |generated| == i && |tails| == i && Distinct(tails)
      invariant forall j :: 0 <= j < i ==>
                  generated[j] == SourceOf(documents[j]) + "_" + tails[j] && NoUnderscore(tails[j]) &&
                  tails[j] in uuids.issued - old(uuids.issued)
    {
      var source := SourceOf(documents[i]);
      var u := uuids.NewUuid();
      generated := generated + [source + "_" + u];
      tails := tails + [u];
    }
    forall j | 0 <= j < |generated|
      ensures IsGeneratedId(generated[j], documents[j]) && MatchesAny(generated[j], [SourceOf(documents[j])])
      ensures generated[j][|SourceOf(documents[j])| + 1..] == tails[j]
    {
      GeneratedIdMatchesSource(documents[j], tails[j]);
    }
    forall j, k | 0 <= j < k < |generated|
      ensures generated[j] != generated[k]
    {
      if generated[j] == generated[k] {
        GeneratedIdParts(SourceOf(documents[j]), tails[j], SourceOf(documents[k]), tails[k]);
      }
    }
  }

  // ---------------------------------------------------------------------------
  // The façade

  /** FAISS_INDEX_PATH, shared by every store object. */
  class IndexDirectory {
    var snapshot: Snapshot

    constructor (snapshot: Snapshot)
      ensures this.snapshot == snapshot
    {
      this.snapshot := snapshot;
    }
  }

  /** `vector_store.as_retriever(search_kwargs={"k": k})`, bound to FAISS object `engine`. */
  datatype Retriever = Retriever(engine: nat, k: int)

  /** `k or Config.TOP_K`: a missing or zero k falls back to the default. */
  function EffectiveK(k: Option<int>, topK: int): int {
    if k.None? || k.value == 0 then topK else k.value
  }

  /** What `_load_or_create_vector_store` loads: a saved snapshot, or the
      placeholder store under a fresh id. */
  function LoadOrCreate(disk: Snapshot, freshId: Id): (ix: Index)
  {
    if disk.Saved? then disk.index else PlaceholderStore(freshId)
  }

  /** Every operation that returns True leaves a snapshot from which a new
      store object loads exactly the content the engine holds. */
  lemma ReopenAfterSuccess(ix: Index, disk: Snapshot, docs: seq<Document>, ids: seq<Id>, batchSize: int,
                           embedOk: Embedder, paths: seq<string>, freshId: Id)
    ensures var o := AddOutcome(ix, disk, docs, ids, batchSize, embedOk);
            o.0 == Ok(true) ==> LoadOrCreate(o.2, freshId) == o.1
    ensures var o := DeleteOutcome(ix, disk, ids);
            o.0 == Ok(true) ==> LoadOrCreate(o.2, freshId) == o.1
    ensures var o := DeleteBySourceOutcome(ix, disk, paths);
            o.0 == Ok(true) ==> LoadOrCreate(o.2, freshId) == o.1
  {
  }

  class FaissVectorStore {
    /** The content of `self.vector_store`. */
    var index: Index
    /** Which FAISS object `self.vector_store` is: replaced by `clear`. */
    var engine: nat
    const dir: IndexDirectory
    /** Config.TOP_K. */
    const topK: int

    /** `__init__`: load the snapshot, or create and save the placeholder store. */
    constructor (dir: IndexDirectory, topK: int, uuids: UuidSource)
      requires uuids.Valid()
      modifies dir, uuids
      ensures this.dir == dir && this.topK == topK && engine == 0 && uuids.Valid()
      ensures old(dir.snapshot).Saved? ==>
                index == old(dir.snapshot).index && dir.snapshot == old(dir.snapshot) && uuids.issued == old(uuids.issued)
      ensures !old(dir.snapshot).Saved? ==>
                exists u :: u !in old(uuids.issued) && index == LoadOrCreate(old(dir.snapshot), u) &&
                            index.Keys == {u} && index[u] == Document(PlaceholderText, map[]) && dir.snapshot == Saved(index)
    {
      this.dir := dir;
      this.topK := topK;
      engine := 0;
      var loaded := dir.snapshot.Saved?;
      if loaded {
        index := dir.snapshot.index;
      } else {
        var u := uuids.NewUuid();
        index := PlaceholderStore(u);
      }
      new;
      if !loaded {
        Save();
      }
    }

    /** `get_retriever(k)`. */
    method GetRetriever(k: Option<int>) returns (r: Retriever)
      ensures r.engine == engine
      ensures k.None? || k.value == 0 ==> r.k == topK
      ensures k.Some? && k.value != 0 ==> r.k == k.value
    {
      r := Retriever(engine, if k.None? || k.value == 0 then topK else k.value);
    }

    /** `search(query, k)`: the engine's ranking is the opaque `similar`. */
    method Search(query: string, k: Option<int>, similar: (Index, string, int) -> seq<Document>) returns (r: seq<Document>)
      ensures k.None? || k.value == 0 ==> r == similar(index, query, topK)
      ensures k.Some? && k.value != 0 ==> r == similar(index, query, k.value)
    {
      r := similar(index, query, EffectiveK(k, topK));
    }

    /** `search_with_score(query, k)`. */
    method SearchWithScore(query: string, k: Option<int>, scored: (Index, string, int) -> seq<(Document, real)>)
      returns (r: seq<(Document, real)>)
      ensures k.None? || k.value == 0 ==> r == scored(index, query, topK)
      ensures k.Some? && k.value != 0 ==> r == scored(index, query, k.value)
    {
      r := scored(index, query, EffectiveK(k, topK));
    }

    /** `save()`: the snapshot becomes the current store. */
    method Save()
      modifies dir
      ensures dir.snapshot == Saved(index)
    {
      dir.snapshot := Saved(index);
    }

    /** `add_documents(documents, batch_size, ids)`; `usedIds` are the ids
        supplied, or those generated as `{source}_{uuid}`. */
    method AddDocuments(documents: seq<Document>, batchSize: int, ids: Option<seq<Id>>, uuids: UuidSource, embedOk: Embedder)
      returns (r: Result<bool>, ghost usedIds: seq<Id>)
      requires uuids.Valid()
      modifies this, dir, uuids
      ensures uuids.Valid() && engine == old(engine)
      ensures ids.Some? ==> usedIds == ids.value
      ensures ids.None? && documents != [] ==>
                |usedIds| == |documents| && Distinct(usedIds) &&
                forall i :: 0 <= i < |usedIds| ==>
                  IsGeneratedId(usedIds[i], documents[i]) && MatchesAny(usedIds[i], [SourceOf(documents[i])]) &&
                  usedIds[i][|SourceOf(documents[i])| + 1..] in uuids.issued - old(uuids.issued)
      ensures (r, index, dir.snapshot) == AddOutcome(old(index), old(dir.snapshot), documents, usedIds, batchSize, embedOk)
    {
      usedIds := if ids.Some? then ids.value else [];
      if documents == [] {
        return Ok(false), usedIds;
      }
      var allIds: seq<Id>;
      if ids.None? {
        allIds := GenerateIds(documents, uuids);
      } else {
        allIds := ids.value;
      }
      usedIds := allIds;
      if |documents| != |allIds| {
        return Err(CountMismatch(|documents|, |allIds|)), usedIds;
      }
      var batches := DocumentLoaderService.BatchProcessDocuments(documents, batchSize);
      if batches.Err? {
        return Err(batches.error), usedIds;
      }
      var docBatches := batches.value;
      var idBatches := if batchSize > 0 then Slices(allIds, batchSize) else [];
      var outcome := CommitBatches(docBatches, idBatches, embedOk);
      if outcome.Failed? {
        return Err(outcome.error), usedIds;
      }
      Save();
      r := Ok(true);
    }

    /** The batch loop of `add_documents`: each batch is added in turn, and
        an exception leaves the batches before it in place. */
    method CommitBatches(docBatches: seq<seq<Document>>, idBatches: seq<seq<Id>>, embedOk: Embedder)
      returns (outcome: BatchOutcome)
      modifies this
      ensures outcome == InsertBatches(old(index), docBatches, idBatches, embedOk)
      ensures index == outcome.index && engine == old(engine)
    {
      var j := 0;
      assert docBatches[0..] == docBatches && idBatches[0..] == idBatches;
      while j < |docBatches| && j < |idBatches|
        invariant 0 <= j <= |docBatches| && j <= |idBatches|
        invariant InsertBatches(old(index), docBatches, idBatches, embedOk)
               == Shift(InsertBatches(index, docBatches[j..], idBatches[j..], embedOk), j)
        invariant engine == old(engine)
      {
        var added := EngineAdd(index, idBatches[j], docBatches[j], embedOk);
        if added.Err? {
          assert InsertBatches(old(index), docBatches, idBatches, embedOk) == Failed(index, j, added.error) by {
            InsertBatchesFrom(index, docBatches, idBatches, embedOk, j);
          }
          return Failed(index, j, added.error);
        }
        ghost var later := InsertBatches(added.value, docBatches[j + 1..], idBatches[j + 1..], embedOk);
        assert InsertBatches(old(index), docBatches, idBatches, embedOk) == Shift(later, j + 1) by {
          InsertBatchesFrom(index, docBatches, idBatches, embedOk, j);
          ShiftTwice(later, j);
        }
        index := added.value;
        j := j + 1;
      }
      assert docBatches[j..] == [] || idBatches[j..] == [];
      outcome := Committed(index);
    }

    /** `delete(ids)`: an engine error is caught and reported as False. */
    method Delete(ids: seq<Id>) returns (r: Result<bool>)
      modifies this, dir
      ensures engine == old(engine)
      ensures (r, index, dir.snapshot) == DeleteOutcome(old(index), old(dir.snapshot), ids)
    {
      if ids == [] {
        return Ok(false);
      }
      var after := EngineDelete(index, ids);
      if after.Err? {
        return Ok(false);
      }
      index := after.value;
      Save();
      r := Ok(true);
    }

    /** `list(index_to_docstore_id.values())`: every stored id once, in the engine's order. */
    method AllIds() returns (all: seq<Id>)
      ensures Distinct(all) && forall x :: x in all <==> x in index
    {
      all := [];
      var rest := index.Keys;
      while rest != {}
        invariant Distinct(all)
        invariant forall x :: x in all <==> x in index && x !in rest
        invariant rest <= index.Keys
        decreases |rest|
      {
        var x :| x in rest;
        all := all + [x];
        rest := rest - {x};
      }
    }

    /** `delete_by_source(source_paths)`. */
    method DeleteBySource(sourcePaths: seq<string>) returns (r: Result<bool>)
      modifies this, dir
      ensures engine == old(engine)
      ensures (r, index, dir.snapshot) == DeleteBySourceOutcome(old(index), old(dir.snapshot), sourcePaths)
    {
      if sourcePaths == [] {
        return Ok(false);
      }
      var allIds := AllIds();
      var idsToDelete := [];
      for i := 0 to |sourcePaths|
        invariant idsToDelete == CollectMatches(sourcePaths[..i], allIds)
      {
        for j := 0 to |allIds|
          invariant idsToDelete == CollectMatches(sourcePaths[..i], allIds) + MatchesOf(sourcePaths[i], allIds[..j])
        {
          assert allIds[..j + 1][..j] == allIds[..j];
          if StartsWith(allIds[j], sourcePaths[i] + "_") {
            idsToDelete := idsToDelete + [allIds[j]];
          }
        }
        assert allIds[..|allIds|] == allIds;
        assert sourcePaths[..i + 1][..i] == sourcePaths[..i];
      }
      assert sourcePaths[..|sourcePaths|] == sourcePaths;
      CollectMatchesSpec(sourcePaths, allIds);
      ghost var m := MatchingIds(index, sourcePaths);
      assert (set x | x in idsToDelete) == m;
      if idsToDelete == [] {
        assert m == {};
        return Ok(false);
      }
      assert idsToDelete[0] in m;
      var after := EngineDelete(index, idsToDelete);
      index := after.value;
      Save();
      r := Ok(true);
    }

    /** `clear()`: a new FAISS object holding only the placeholder, saved. */
    method Clear(uuids: UuidSource)
      requires uuids.Valid()
      modifies this, dir, uuids
      ensures uuids.Valid() && engine == old(engine) + 1
      ensures exists u :: u !in old(uuids.issued) && index.Keys == {u} && index[u] == Document(PlaceholderText, map[])
      ensures dir.snapshot == Saved(index)
    {
      var u := uuids.NewUuid();
      index := PlaceholderStore(u);
      engine := engine + 1;
      Save();
    }
  }

  /** `get_faiss_vector_store()`: the process-wide instance, created on first use. */
  class StoreHolder {
    var instance: FaissVectorStore?

    constructor ()
      ensures instance == null
    {
      instance := null;
    }

    method Get(dir: IndexDirectory, topK: int, uuids: UuidSource) returns (s: FaissVectorStore)
      requires uuids.Valid()
      modifies this, dir, uuids
      ensures uuids.Valid() && instance == s
      ensures old(instance) != null ==> s == old(instance) && unchanged(dir, uuids)
      ensures old(instance) == null ==> fresh(s) && s.dir == dir && s.engine == 0 && s.topK == topK
      ensures old(instance) == null && old(dir.snapshot).Saved? ==>
                s.index == old(dir.snapshot).index && dir.snapshot == old(dir.snapshot)
      ensures old(instance) == null && !old(dir.snapshot).Saved? ==>
                exists u :: u !in old(uuids.issued) && s.index.Keys == {u} && s.index[u] == Document(PlaceholderText, map[]) &&
                            dir.snapshot == Saved(s.index)
    {
      if instance == null {
        instance := new FaissVectorStore(dir, topK, uuids);
      }
      s := instance;
    }
  }
}
