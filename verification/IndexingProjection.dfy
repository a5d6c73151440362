/**
 The indexing transactions together with the worker that projects chunks: the transactions change the
 tables and append to the log, and between any two of them, the worker takes any steps it can. What
 `ChunkProjection` says of its rows is thereby said of the tables.
 */
module IndexingProjection {
  import opened Common
  import opened FolderDigests
  import opened FolderGraph
  import opened Outbox
  import opened IndexingSession
  import Steps = IndexingSteps
  import opened FolderFrames
  import P = ChunkProjection
  import Text

  // The tables and the rows of the projection

  ghost predicate RowMatches(s: Sources, d: string, row: P.Row)
    requires d in s.documents
  {
    var document, snapshot := s.documents[d], row.snapshot;
    && document.version == snapshot.version && document.updatedAt == snapshot.updatedAt
    && document.contentDigest == snapshot.contentDigest && document.deleted == row.deleted
    && (!document.deleted ==>
          && d in s.documentIndex
          && s.documentIndex[d] == DocumentIndex(snapshot.indexDigest, snapshot.signalDigest, false))
  }

  /** The rows are the document rows of the tables, with the index record of each active one. */
  ghost predicate Matches(s: Sources, rows: map<P.Doc, P.Row>) {
    && (forall doc | doc in rows :: doc.id in s.documents && s.documents[doc.id].tenant == doc.tenant)
    && (forall d | d in s.documents ::
          var doc := P.Doc(s.documents[d].tenant, d);
          doc in rows && RowMatches(s, d, rows[doc]))
  }

  /** `is_current_document_index_input_digest`, as the tables answer it. */
  predicate FreshInTables(s: Sources, tenant: string, d: string, indexDigest: string) {
    && d in s.documents && s.documents[d].tenant == tenant && !s.documents[d].deleted
    && d in s.documentIndex && !s.documentIndex[d].deleted && s.documentIndex[d].indexDigest == indexDigest
  }

  lemma {:induction false} FreshnessAgrees(s: Sources, rows: map<P.Doc, P.Row>, tenant: string, d: string,
                                           digest: string)
    requires Matches(s, rows)
    ensures P.Fresh(rows, P.Doc(tenant, d), digest) <==> FreshInTables(s, tenant, d, digest)
  {
    if P.Doc(tenant, d) in rows {
      assert RowMatches(s, d, rows[P.Doc(tenant, d)]);
    }
  }

  // A transaction as producer steps

  function Others(events: seq<Event>): seq<P.Step> {
    if events == [] then [] else [P.ProduceOther(events[0])] + Others(events[1..])
  }

  ghost predicate NoneOfDocuments(events: seq<Event>) {
    forall e | e in events :: !e.DocumentIndexed? && !e.DocumentDeleted?
  }

  /** The steps whose first one writes the document, if the command is about one and is applied. */
  ghost function StepsOf(db: Database, c: Steps.Command): seq<P.Step> {
    var events := EventsOf(db, c);
    if events == [] then []
    else
      match c
      case IndexDocumentCommand(tenant, d, snapshot, _) =>
        [P.ProduceIndex(P.Doc(tenant, d), snapshot, Affected(events[0]))] + Others(events[1..])
      case DeleteDocumentCommand(d) =>
        [P.ProduceDelete(P.Doc(events[0].tenant, d), Affected(events[0]))] + Others(events[1..])
      case _ => Others(events)
  }

  function Affected(e: Event): seq<string> {
    if e.DocumentDeleted? then e.affectedFolderIds else []
  }

  /** Only the first event of a document command is about the document itself. */
  lemma {:induction false} FirstEvent(db: Database, c: Steps.Command)
    requires EventsOf(db, c) != []
    ensures NoneOfDocuments(EventsOf(db, c)[1..])
    ensures !c.IndexDocumentCommand? && !c.DeleteDocumentCommand? ==> NoneOfDocuments(EventsOf(db, c))
    ensures c.IndexDocumentCommand? ==>
              Steps.AcceptsDocument(db.sources, c.documentId, c.snapshot)
              && EventsOf(db, c)[0]
                 == P.IndexEvent(P.Doc(c.tenant, c.documentId), c.snapshot, Affected(EventsOf(db, c)[0]))
    ensures c.DeleteDocumentCommand? ==>
              && c.documentId in db.sources.documents && !db.sources.documents[c.documentId].deleted
              && var row := db.sources.documents[c.documentId];
                 EventsOf(db, c)[0]
                 == DocumentDeleted(row.tenant, c.documentId, row.version, Affected(EventsOf(db, c)[0]))
  {
    match c
    case IndexFolderCommand(f, row) => FolderEvents(db, f, row);
    case DeleteFolderCommand(f) => FolderDeletion(db, f);
    case IndexDocumentCommand(tenant, d, snapshot, folderIds) => DocumentEvents(db, tenant, d, snapshot, folderIds);
    case DeleteDocumentCommand(d) => DocumentDeletion(db, d);
    case ReplaceFolderSignalsCommand(_, _, _, _, _) =>
  }

  lemma {:induction false} AfterFirst(first: Event, more: seq<Event>, rest: seq<Event>)
    requires NoneOfDocuments(more) && forall e | e in rest :: e.SignalsInvalidated?
    ensures ([first] + more + rest)[1..] == more + rest && NoneOfDocuments(more + rest)
    ensures ([first] + rest)[1..] == rest && NoneOfDocuments(rest)
    ensures NoneOfDocuments([first]) ==> NoneOfDocuments([first] + rest)
  {
  }

  lemma {:induction false} FolderEvents(db: Database, f: string, row: FolderSource)
    ensures NoneOfDocuments([FolderIndexed(row.tenant, f, row)] + FolderInvalidations(db, f, row))
  {
    var s := Steps.AfterFolderUpsert(db.sources, f, row);
    var ids := AffectedByUpsert(CurrentFolder(db.sources, row.tenant, f), ActiveParents(s, row.tenant), f, row);
    InvalidationsAreOthers(s, db.records[f := FreshRecord(s, db.records, row.tenant, f, Pending)], row.tenant,
                           Text.Sorted(ids));
    AfterFirst(FolderIndexed(row.tenant, f, row), [], FolderInvalidations(db, f, row));
  }

  lemma {:induction false} FolderDeletion(db: Database, f: string)
    requires f in db.sources.folders && f in db.records
    ensures NoneOfDocuments(FolderDeletionEvents(db, f))
  {
    var row := db.sources.folders[f];
    var s := Steps.AfterFolderUpsert(db.sources, f, row.(deleted := true));
    var records := db.records[f := db.records[f].(deleted := true)];
    var ids := Text.Sorted(AncestorFolderIds(ActiveParents(db.sources, row.tenant), {f}) - {f});
    InvalidationsAreOthers(s, records, row.tenant, ids);
    AfterFirst(FolderDeleted(row.tenant, f, row.version), [], InvalidationEvents(s, records, row.tenant, ids));
  }

  lemma {:induction false} DocumentDeletion(db: Database, d: string)
    requires d in db.sources.documents
    ensures var events := DeletionEvents(db, d);
            && events != [] && NoneOfDocuments(events[1..])
            && events[0] == DocumentDeleted(db.sources.documents[d].tenant, d, db.sources.documents[d].version,
                                            Affected(events[0]))
  {
    var row := db.sources.documents[d];
    var ids := Text.Sorted(Steps.AffectedByDelete(db.sources, db.signals, row.tenant, d));
    InvalidationsAreOthers(Steps.AfterDocumentDelete(db.sources, d), db.records, row.tenant, ids);
    assert DeletionEvents(db, d)[1..]
        == InvalidationEvents(Steps.AfterDocumentDelete(db.sources, d), db.records, row.tenant, ids);
  }

  lemma {:induction false} DocumentEvents(db: Database, tenant: string, d: string, snapshot: Snapshot,
                                          folderIds: Option<seq<string>>)
    ensures var events := IndexingEvents(db, tenant, d, snapshot, folderIds);
            && events != [] && NoneOfDocuments(events[1..])
            && events[0] == P.IndexEvent(P.Doc(tenant, d), snapshot, Affected(events[0]))
  {
    var upserted := db.(sources := Steps.AfterDocumentUpsert(db.sources, tenant, d, snapshot));
    if snapshot.chunks == [] {
      DocumentDeletion(upserted, d);
    } else {
      var relations := if folderIds.Some? then [RelationsIndexed(tenant, d, snapshot.version, folderIds.value)] else [];
      DocumentInvalidationsAreOthers(upserted, tenant, d, snapshot, folderIds);
      AfterFirst(DocumentIndexed(tenant, d, snapshot), relations,
                 DocumentInvalidations(upserted, tenant, d, snapshot, folderIds));
    }
  }

  lemma {:induction false} OthersAppend(s: P.State, events: seq<Event>)
    requires P.Working(s) && NoneOfDocuments(events)
    ensures P.TakeAll(s, Others(events)) == Some(s.(log := AppendAll(s.log, events)))
    decreases |events|
  {
    if events != [] {
      var step := P.ProduceOther(events[0]);
      assert events[0] in events;
      var after := P.Take(s, step);
      assert after == s.(log := AppendEvent(s.log, events[0]));
      assert Others(events)[1..] == Others(events[1..]);
      OthersAppend(after, events[1..]);
    }
  }

  /** The rows after a command, as the projection has them. */
  ghost function RowsAfter(db: Database, c: Steps.Command, rows: map<P.Doc, P.Row>): map<P.Doc, P.Row> {
    if EventsOf(db, c) == [] then rows
    else
      match c
      case IndexDocumentCommand(tenant, d, snapshot, _) =>
        rows[P.Doc(tenant, d) := P.Row(snapshot, snapshot.chunks == [])]
      case DeleteDocumentCommand(d) =>
        var doc := P.Doc(EventsOf(db, c)[0].tenant, d);
        if doc in rows then rows[doc := rows[doc].(deleted := true)] else rows
      case _ => rows
  }

  lemma {:induction false} AcceptanceAgrees(s: Sources, rows: map<P.Doc, P.Row>, tenant: string, d: string,
                                            snapshot: Snapshot)
    requires Matches(s, rows) && (d in s.documents ==> s.documents[d].tenant == tenant)
    ensures P.Accepts(rows, P.Doc(tenant, d), snapshot) <==> Steps.AcceptsDocument(s, d, snapshot)
  {
    if d in s.documents {
      assert RowMatches(s, d, rows[P.Doc(tenant, d)]);
    }
  }

  /**
   A transaction is a sequence of producer steps: they are possible in any state of the worker, append
   what the transaction appends, and keep the rows those of the tables.
   */
  lemma {:induction false} TransactionIsProduced(db: Database, c: Steps.Command, s: P.State)
    requires P.Working(s) && Matches(db.sources, s.rows) && Steps.Admissible(db, c)
    ensures P.TakeAll(s, StepsOf(db, c))
         == Some(s.(rows := RowsAfter(db, c, s.rows), log := AppendAll(s.log, EventsOf(db, c))))
  {
    var events := EventsOf(db, c);
    if events != [] {
      FirstEvent(db, c);
      if c.IndexDocumentCommand? || c.DeleteDocumentCommand? {
        var step := StepsOf(db, c)[0];
        var after := s.(rows := RowsAfter(db, c, s.rows), log := AppendEvent(s.log, events[0]));
        if c.IndexDocumentCommand? {
          AcceptanceAgrees(db.sources, s.rows, c.tenant, c.documentId, c.snapshot);
        } else {
          assert RowMatches(db.sources, c.documentId,
                            s.rows[P.Doc(db.sources.documents[c.documentId].tenant, c.documentId)]);
        }
        assert P.Take(s, step) == after;
        OthersAppend(after, events[1..]);
        assert StepsOf(db, c)[1..] == Others(events[1..]);
      } else {
        OthersAppend(s, events);
      }
    }
  }

  lemma {:induction false} TransactionMatches(db: Database, c: Steps.Command, rows: map<P.Doc, P.Row>)
    requires Matches(db.sources, rows) && Steps.Admissible(db, c)
    ensures Matches(Steps.Apply(db, c).sources, RowsAfter(db, c, rows))
  {
    var s := Steps.Apply(db, c).sources;
    if EventsOf(db, c) != [] {
      FirstEvent(db, c);
    }
    match c
    case IndexDocumentCommand(tenant, d, snapshot, folderIds) =>
      if Steps.AcceptsDocument(db.sources, d, snapshot) {
        DocumentEvents(db, tenant, d, snapshot, folderIds);
        IndexedMatches(db, tenant, d, snapshot, folderIds, rows);
      }
    case DeleteDocumentCommand(d) => DeletedMatches(db, d, rows);
    case _ =>
      assert s.documents == db.sources.documents && s.documentIndex == db.sources.documentIndex;
      forall d | d in s.documents ensures RowMatches(s, d, rows[P.Doc(s.documents[d].tenant, d)]) {
        assert RowMatches(db.sources, d, rows[P.Doc(s.documents[d].tenant, d)]);
      }
  }

  /** What an accepted index command does to the tables that the projection reads. */
  lemma {:induction false} IndexedTables(db: Database, tenant: string, d: string, snapshot: Snapshot,
                                         folderIds: Option<seq<string>>)
    requires Steps.AcceptsDocument(db.sources, d, snapshot)
    ensures var s := Steps.IndexDocument(db, tenant, d, snapshot, folderIds).sources;
            var deleted := snapshot.chunks == [];
            && s.documents == db.sources.documents[d := Steps.DocumentRow(tenant, snapshot).(deleted := deleted)]
            && (forall x | x != d && x in db.sources.documentIndex ::
                  x in s.documentIndex && s.documentIndex[x] == db.sources.documentIndex[x])
            && (!deleted ==>
                  && d in s.documentIndex
                  && s.documentIndex[d] == DocumentIndex(snapshot.indexDigest, snapshot.signalDigest, false))
  {
    var row := Steps.DocumentRow(tenant, snapshot);
    var documents := db.sources.documents;
    assert documents[d := row][d := row.(deleted := true)] == documents[d := row.(deleted := true)];
  }

  lemma {:induction false} IndexedMatches(db: Database, tenant: string, d: string, snapshot: Snapshot,
                                          folderIds: Option<seq<string>>, rows: map<P.Doc, P.Row>)
    requires Matches(db.sources, rows) && (d in db.sources.documents ==> db.sources.documents[d].tenant == tenant)
    requires Steps.AcceptsDocument(db.sources, d, snapshot)
    ensures Matches(Steps.IndexDocument(db, tenant, d, snapshot, folderIds).sources,
                    rows[P.Doc(tenant, d) := P.Row(snapshot, snapshot.chunks == [])])
  {
    IndexedTables(db, tenant, d, snapshot, folderIds);
    var s := Steps.IndexDocument(db, tenant, d, snapshot, folderIds).sources;
    WrittenMatches(db.sources, s, tenant, d, snapshot, rows);
  }

  lemma {:induction false} WrittenMatches(s: Sources, s': Sources, tenant: string, d: string, snapshot: Snapshot,
                                          rows: map<P.Doc, P.Row>)
    requires Matches(s, rows) && (d in s.documents ==> s.documents[d].tenant == tenant)
    requires s'.documents == s.documents[d := Steps.DocumentRow(tenant, snapshot).(deleted := snapshot.chunks == [])]
    requires forall x | x != d && x in s.documentIndex ::
               x in s'.documentIndex && s'.documentIndex[x] == s.documentIndex[x]
    requires snapshot.chunks != [] ==>
      d in s'.documentIndex && s'.documentIndex[d] == DocumentIndex(snapshot.indexDigest, snapshot.signalDigest, false)
    ensures Matches(s', rows[P.Doc(tenant, d) := P.Row(snapshot, snapshot.chunks == [])])
  {
    var rows' := rows[P.Doc(tenant, d) := P.Row(snapshot, snapshot.chunks == [])];
    forall x | x in s'.documents
      ensures P.Doc(s'.documents[x].tenant, x) in rows' && RowMatches(s', x, rows'[P.Doc(s'.documents[x].tenant, x)])
    {
      if x != d {
        assert RowMatches(s, x, rows[P.Doc(s.documents[x].tenant, x)]);
      }
    }
  }

  lemma {:induction false} DeletedMatches(db: Database, d: string, rows: map<P.Doc, P.Row>)
    requires Matches(db.sources, rows)
    ensures Matches(Steps.DeleteDocument(db, d).sources, RowsAfter(db, Steps.DeleteDocumentCommand(d), rows))
  {
    var c := Steps.DeleteDocumentCommand(d);
    if EventsOf(db, c) != [] {
      FirstEvent(db, c);
    } else if d in db.sources.documents && !db.sources.documents[d].deleted {
      DocumentDeletion(db, d);
    }
    var s := Steps.DeleteDocument(db, d).sources;
    forall x | x in s.documents
      ensures var doc := P.Doc(s.documents[x].tenant, x);
              doc in RowsAfter(db, c, rows) && RowMatches(s, x, RowsAfter(db, c, rows)[doc])
    {
      assert RowMatches(db.sources, x, rows[P.Doc(db.sources.documents[x].tenant, x)]);
    }
  }

  // Transactions and worker together

  datatype System = System(db: Database, s: P.State)

  datatype Action = Transaction(command: Steps.Command) | Worker(step: P.Step)

  ghost function Act(x: System, a: Action): System
    requires P.Working(x.s) && (a.Worker? ==> P.Enabled(x.s, a.step))
  {
    match a
    case Transaction(c) =>
      System(Steps.Apply(x.db, c), match P.TakeAll(x.s, StepsOf(x.db, c)) case Some(t) => t case None => x.s)
    case Worker(step) => x.(s := P.Take(x.s, step))
  }

  type Versions = (P.Doc, string) -> Snapshot

  /** The command sends a version with text again after that very version was deleted. */
  predicate Resends(s: Sources, c: Steps.Command) {
    && c.IndexDocumentCommand? && c.snapshot.chunks != [] && c.documentId in s.documents
    && s.documents[c.documentId].deleted && s.documents[c.documentId].version == c.snapshot.version
  }

  ghost predicate Determined(versions: Versions, c: Steps.Command) {
    c.IndexDocumentCommand? ==> versions(P.Doc(c.tenant, c.documentId), c.snapshot.version) == c.snapshot
  }

  ghost predicate Allowed(versions: Versions, x: System, a: Action) {
    match a
    case Transaction(c) => Steps.Admissible(x.db, c) && Determined(versions, c) && !Resends(x.db.sources, c)
    case Worker(step) => P.Enabled(x.s, step) && !P.ProducerStep(step)
  }

  ghost predicate Good(versions: Versions, x: System) {
    P.Inv(x.s) && P.History(versions, x.s) && Matches(x.db.sources, x.s.rows)
  }

  lemma {:induction false} ProducerKeeps(versions: Versions, s: P.State, step: P.Step)
    requires P.Inv(s) && P.History(versions, s) && P.ProducerStep(step)
    requires P.Deterministic(versions, step) && !P.ResentAfterDeletion(s, step)
    ensures P.Inv(P.Take(s, step)) && P.History(versions, P.Take(s, step))
  {
    P.SyncedUnlessResent(versions, s, step);
    P.HistoryKept(versions, s, step);
    P.ProducerStepKeeps(s, step);
  }

  lemma {:induction false} OthersKeep(versions: Versions, s: P.State, events: seq<Event>)
    requires P.Inv(s) && P.History(versions, s) && P.TakeAll(s, Others(events)).Some?
    ensures var t := P.TakeAll(s, Others(events)).value;
            P.Inv(t) && P.History(versions, t)
    decreases |events|
  {
    if events != [] {
      assert Others(events)[1..] == Others(events[1..]);
      ProducerKeeps(versions, s, P.ProduceOther(events[0]));
      OthersKeep(versions, P.Take(s, P.ProduceOther(events[0])), events[1..]);
    }
  }

  lemma {:induction false} FirstThenOthersKeep(versions: Versions, s: P.State, step: P.Step, events: seq<Event>)
    requires P.Inv(s) && P.History(versions, s) && P.TakeAll(s, [step] + Others(events)).Some?
    requires P.ProducerStep(step) && P.Deterministic(versions, step) && !P.ResentAfterDeletion(s, step)
    ensures var t := P.TakeAll(s, [step] + Others(events)).value;
            P.Inv(t) && P.History(versions, t)
  {
    assert ([step] + Others(events))[1..] == Others(events);
    ProducerKeeps(versions, s, step);
    OthersKeep(versions, P.Take(s, step), events);
  }

  lemma {:induction false} TransactionKeeps(versions: Versions, x: System, c: Steps.Command)
    requires Good(versions, x) && Allowed(versions, x, Transaction(c))
    ensures Good(versions, Act(x, Transaction(c)))
    ensures Act(x, Transaction(c)).s.log == AppendAll(x.s.log, EventsOf(x.db, c))
  {
    TransactionIsProduced(x.db, c, x.s);
    TransactionMatches(x.db, c, x.s.rows);
    var events := EventsOf(x.db, c);
    if events != [] && (c.IndexDocumentCommand? || c.DeleteDocumentCommand?) {
      var step := StepsOf(x.db, c)[0];
      if c.IndexDocumentCommand? && c.documentId in x.db.sources.documents {
        assert RowMatches(x.db.sources, c.documentId, x.s.rows[P.Doc(c.tenant, c.documentId)]);
      }
      FirstThenOthersKeep(versions, x.s, step, events[1..]);
    } else {
      OthersKeep(versions, x.s, events);
    }
  }

  lemma {:induction false} ActKeeps(versions: Versions, x: System, a: Action)
    requires Good(versions, x) && Allowed(versions, x, a)
    ensures Good(versions, Act(x, a))
  {
    match a
    case Transaction(c) => TransactionKeeps(versions, x, c);
    case Worker(step) => P.WorkerStepKeeps(x.s, step);
  }

  ghost predicate Possible(versions: Versions, x: System, actions: seq<Action>)
    decreases |actions|
  {
    actions != [] ==>
      && P.Working(x.s) && Allowed(versions, x, actions[0])
      && Possible(versions, Act(x, actions[0]), actions[1..])
  }

  ghost function After(versions: Versions, x: System, actions: seq<Action>): System
    requires Possible(versions, x, actions)
    decreases |actions|
  {
    if actions == [] then x else After(versions, Act(x, actions[0]), actions[1..])
  }

  lemma {:induction false} AfterKeeps(versions: Versions, x: System, actions: seq<Action>)
    requires Good(versions, x) && Possible(versions, x, actions)
    ensures Good(versions, After(versions, x, actions))
    decreases |actions|
  {
    if actions != [] {
      ActKeeps(versions, x, actions[0]);
      AfterKeeps(versions, Act(x, actions[0]), actions[1..]);
    }
  }

  /** What the chunk store should hold of a document by the tables: the chunks of its current version, if active. */
  function CurrentChunks(versions: Versions, s: Sources, tenant: string, d: string): map<P.PointId, P.Point> {
    if d in s.documents && s.documents[d].tenant == tenant && !s.documents[d].deleted then
      var snapshot := versions(P.Doc(tenant, d), s.documents[d].version);
      P.PointsOf(P.Doc(tenant, d), snapshot, snapshot.chunks)
    else map[]
  }

  const START := System(Steps.EMPTY, P.START)

  /**
   Whatever transactions run on the tables, and whatever steps the worker takes in between, crashes
   included: once the worker has handled every event about a document, store and ledger hold exactly
   the chunks of the version the tables hold, or nothing if they do not hold it as active.
   */
  lemma {:induction false} StoreFollowsTables(versions: Versions, actions: seq<Action>, tenant: string, d: string)
    requires Possible(versions, START, actions)
    ensures var x := After(versions, START, actions);
            P.Quiet(x.s.log, P.Doc(tenant, d), x.s.offset) ==>
              P.Settled(x.s, P.Doc(tenant, d), CurrentChunks(versions, x.db.sources, tenant, d))
  {
    P.StartInv();
    AfterKeeps(versions, START, actions);
    var x, doc := After(versions, START, actions), P.Doc(tenant, d);
    if P.Quiet(x.s.log, doc, x.s.offset) {
      P.HandledLogConverges(x.s, doc);
      if doc in x.s.rows {
        assert RowMatches(x.db.sources, d, x.s.rows[doc]);
      }
    }
  }
}
