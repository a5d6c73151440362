/**
 The service that projects chunks: it writes the vector store and then the ledger, in the steps that
 `ChunkProjection` interleaves with everything else.
 */
module ChunkProjector {
  import opened Outbox
  import opened ChunkProjection

  /** The state once an uninterrupted worker has carried out the event at its offset, short of the commit. */
  function CarriedOut(s: State): State
    requires Working(s) && s.phase == Idle && s.offset < |s.log|
  {
    var checked := Take(s, Check);
    if checked.phase == Checked then Take(Take(Take(checked, DeleteFromStore), UpsertIntoStore), WriteLedger)
    else checked
  }

  lemma {:induction false} PointsOfMore(doc: Doc, snapshot: Snapshot, chunks: seq<Chunk>, last: Chunk)
    ensures PointsOf(doc, snapshot, chunks + [last])
         == PointsOf(doc, snapshot, chunks)[PointId(doc, snapshot.indexDigest, last.index) :=
              Point(snapshot.version, snapshot.updatedAt, snapshot.details, last)]
  {
    assert (chunks + [last])[..|chunks|] == chunks;
  }

  /** The ledger records of the chunks of a snapshot. */
  function RecordsOf(doc: Doc, snapshot: Snapshot, chunks: seq<Chunk>): map<PointId, string> {
    LedgerOf(PointsOf(doc, snapshot, chunks))
  }

  lemma {:induction false} RecordsOfMore(doc: Doc, snapshot: Snapshot, chunks: seq<Chunk>, last: Chunk)
    ensures RecordsOf(doc, snapshot, chunks + [last])
         == RecordsOf(doc, snapshot, chunks)[PointId(doc, snapshot.indexDigest, last.index) := snapshot.indexDigest]
  {
    PointsOfMore(doc, snapshot, chunks, last);
  }

  /** The store holds the chunks of one version of a document, and what it held of all others. */
  ghost predicate HoldsChunks(store: map<PointId, Point>, store': map<PointId, Point>, doc: Doc, snapshot: Snapshot) {
    && (forall p: PointId | p.doc != doc :: (p in store <==> p in store') && (p in store ==> store'[p] == store[p]))
    && (forall p | p in store' && p.doc == doc ::
          exists i | 0 <= i < |snapshot.chunks| :: p == PointId(doc, snapshot.indexDigest, snapshot.chunks[i].index))
    && (forall i | 0 <= i < |snapshot.chunks| && LastOfPosition(snapshot.chunks, i) ::
          var p := PointId(doc, snapshot.indexDigest, snapshot.chunks[i].index);
          p in store'
          && store'[p] == Point(snapshot.version, snapshot.updatedAt, snapshot.details, snapshot.chunks[i]))
  }

  lemma {:induction false} ReplacedChunks(store: map<PointId, Point>, doc: Doc, snapshot: Snapshot)
    ensures HoldsChunks(store, OthersOf(store, doc) + PointsOf(doc, snapshot, snapshot.chunks), doc, snapshot)
  {
    var points := PointsOf(doc, snapshot, snapshot.chunks);
    forall p | p in points
      ensures exists i | 0 <= i < |snapshot.chunks| ::
                p == PointId(doc, snapshot.indexDigest, snapshot.chunks[i].index)
    {
      var i := PointIsOfChunk(doc, snapshot, snapshot.chunks, p);
    }
    forall i | 0 <= i < |snapshot.chunks| && LastOfPosition(snapshot.chunks, i)
      ensures var p := PointId(doc, snapshot.indexDigest, snapshot.chunks[i].index);
              p in points
              && points[p] == Point(snapshot.version, snapshot.updatedAt, snapshot.details, snapshot.chunks[i])
    {
      ChunkStays(doc, snapshot, snapshot.chunks, i);
    }
  }

  /** The ledger lists those points, each with the digest it was made from, and what it listed of all others. */
  ghost predicate ListsChunks(ledger: map<PointId, string>, ledger': map<PointId, string>, doc: Doc, snapshot: Snapshot)
  {
    && (forall p: PointId | p.doc != doc ::
          (p in ledger <==> p in ledger') && (p in ledger ==> ledger'[p] == ledger[p]))
    && (forall p | p in ledger' && p.doc == doc ::
          ledger'[p] == snapshot.indexDigest
          && exists i | 0 <= i < |snapshot.chunks| ::
               p == PointId(doc, snapshot.indexDigest, snapshot.chunks[i].index))
    && (forall i | 0 <= i < |snapshot.chunks| && LastOfPosition(snapshot.chunks, i) ::
          PointId(doc, snapshot.indexDigest, snapshot.chunks[i].index) in ledger')
  }

  lemma {:induction false} ReplacedRecords(ledger: map<PointId, string>, doc: Doc, snapshot: Snapshot)
    ensures ListsChunks(ledger, OthersOf(ledger, doc) + RecordsOf(doc, snapshot, snapshot.chunks), doc, snapshot)
  {
    var records := RecordsOf(doc, snapshot, snapshot.chunks);
    forall p | p in records
      ensures exists i | 0 <= i < |snapshot.chunks| ::
                p == PointId(doc, snapshot.indexDigest, snapshot.chunks[i].index)
    {
      var i := PointIsOfChunk(doc, snapshot, snapshot.chunks, p);
    }
    forall i | 0 <= i < |snapshot.chunks| && LastOfPosition(snapshot.chunks, i)
      ensures PointId(doc, snapshot.indexDigest, snapshot.chunks[i].index) in records
    {
      ChunkStays(doc, snapshot, snapshot.chunks, i);
    }
  }

  class Projector {
    var store: map<PointId, Point>
    var ledger: map<PointId, string>

    method DeleteDocumentChunks(doc: Doc)
      modifies this`store
      ensures store == OthersOf(old(store), doc)
    {
      store := OthersOf(store, doc);
    }

    method ReplaceDocumentChunks(doc: Doc, snapshot: Snapshot)
      modifies this`store
      ensures store == OthersOf(old(store), doc) + PointsOf(doc, snapshot, snapshot.chunks)
    {
      DeleteDocumentChunks(doc);
      ghost var others := store;
      assert snapshot.chunks[..0] == [];
      for i := 0 to |snapshot.chunks|
        invariant store == others + PointsOf(doc, snapshot, snapshot.chunks[..i])
      {
        var chunk := snapshot.chunks[i];
        assert snapshot.chunks[..i + 1] == snapshot.chunks[..i] + [chunk];
        PointsOfMore(doc, snapshot, snapshot.chunks[..i], chunk);
        store := store[PointId(doc, snapshot.indexDigest, chunk.index) :=
                         Point(snapshot.version, snapshot.updatedAt, snapshot.details, chunk)];
      }
      assert snapshot.chunks[..|snapshot.chunks|] == snapshot.chunks;
    }

    method ReplaceChunkVectorRecords(doc: Doc, snapshot: Snapshot)
      modifies this`ledger
      ensures ledger == OthersOf(old(ledger), doc) + RecordsOf(doc, snapshot, snapshot.chunks)
    {
      ledger := OthersOf(ledger, doc);
      ghost var others := ledger;
      assert snapshot.chunks[..0] == [] && RecordsOf(doc, snapshot, []) == map[];
      for i := 0 to |snapshot.chunks|
        invariant ledger == others + RecordsOf(doc, snapshot, snapshot.chunks[..i])
      {
        RecordsOfMore(doc, snapshot, snapshot.chunks[..i], snapshot.chunks[i]);
        assert snapshot.chunks[..i + 1] == snapshot.chunks[..i] + [snapshot.chunks[i]];
        ledger := ledger[PointId(doc, snapshot.indexDigest, snapshot.chunks[i].index) := snapshot.indexDigest];
      }
      assert snapshot.chunks[..|snapshot.chunks|] == snapshot.chunks;
    }

    /** `project_document_chunks`: nothing is written for a command that is no longer current. */
    method ProjectDocumentChunks(doc: Doc, snapshot: Snapshot, current: bool)
      modifies this
      ensures store == if current then OthersOf(old(store), doc) + PointsOf(doc, snapshot, snapshot.chunks)
                       else old(store)
      ensures ledger == if current then OthersOf(old(ledger), doc) + RecordsOf(doc, snapshot, snapshot.chunks)
                        else old(ledger)
      ensures if current then
                HoldsChunks(old(store), store, doc, snapshot) && ListsChunks(old(ledger), ledger, doc, snapshot)
              else store == old(store) && ledger == old(ledger)
    {
      if !current {
        return;
      }
      ReplacedChunks(store, doc, snapshot);
      ReplacedRecords(ledger, doc, snapshot);
      ReplaceDocumentChunks(doc, snapshot);
      ReplaceChunkVectorRecords(doc, snapshot);
    }

    /** Deletions are not checked for freshness. */
    method DeleteChunkProjection(doc: Doc)
      modifies this
      ensures store == OthersOf(old(store), doc) && ledger == OthersOf(old(ledger), doc)
    {
      DeleteDocumentChunks(doc);
      ledger := OthersOf(ledger, doc);
    }

    /** The service does to the store and the ledger what the worker's steps do. */
    method Consume(ghost s: State, rows: map<Doc, Row>, e: Event)
      requires Working(s) && s.phase == Idle && s.offset < |s.log| && s.log[s.offset] == e
      requires s.rows == rows && s.store == store && s.ledger == ledger
      modifies this
      ensures store == CarriedOut(s).store && ledger == CarriedOut(s).ledger
      ensures e.DocumentIndexed? ==>
        var doc := Doc(e.tenant, e.documentId);
        if doc in rows && !rows[doc].deleted && rows[doc].snapshot.indexDigest == e.snapshot.indexDigest then
          HoldsChunks(old(store), store, doc, e.snapshot) && ListsChunks(old(ledger), ledger, doc, e.snapshot)
        else store == old(store) && ledger == old(ledger)
    {
      match e
      case DocumentIndexed(tenant, id, snapshot) =>
        ProjectDocumentChunks(Doc(tenant, id), snapshot, Fresh(rows, Doc(tenant, id), snapshot.indexDigest));
      case DocumentDeleted(tenant, id, _, _) =>
        DeleteChunkProjection(Doc(tenant, id));
        assert OthersOf(s.store, Doc(tenant, id)) + map[] == OthersOf(s.store, Doc(tenant, id));
        assert OthersOf(s.ledger, Doc(tenant, id)) + LedgerOf(map[]) == OthersOf(s.ledger, Doc(tenant, id));
      case _ =>
    }
  }
}
