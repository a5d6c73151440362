/**
 What each indexing command does to the database, and the invariants over every run of commands:
 every stored digest equals the one recomputed from scratch, and no folder signal outlives its input.
 */
module IndexingSteps {
  import opened Common
  import opened FolderGraph
  import opened FolderDigests
  import opened FolderFrames
  import opened Outbox
  import Text

  predicate AcceptsFolder(s: Sources, f: string, row: FolderSource) {
    f !in s.folders || s.folders[f].version == row.version || s.folders[f].updatedAt < row.updatedAt
  }

  predicate AcceptsDocument(s: Sources, d: string, snapshot: Snapshot) {
    d !in s.documents || s.documents[d].version == snapshot.version || s.documents[d].updatedAt < snapshot.updatedAt
  }

  function DocumentRow(tenant: string, snapshot: Snapshot): DocumentSource {
    DocumentSource(tenant, snapshot.version, snapshot.updatedAt, snapshot.contentDigest, false)
  }

  function RelationsWithout(relations: set<Membership>, tenant: string, d: string): set<Membership> {
    set m | m in relations && !(m.tenant == tenant && m.documentId == d)
  }

  function MembershipsOf(tenant: string, d: string, ids: set<string>): set<Membership> {
    set f | f in ids :: Membership(tenant, d, f)
  }

  function NormalizedFolderIds(ids: seq<string>): set<string> {
    set i | 0 <= i < |ids| && Text.Strip(ids[i]) != "" :: Text.Strip(ids[i])
  }

  function FoldersReferring(signals: set<FolderSignalRow>, d: string): set<string> {
    set row | row in signals && row.relatedDocumentId == Some(d) :: row.folderId
  }

  /** The invalidation of `ids` over the new sources and the records as upserted. */
  ghost function Invalidate(s: Sources, records: Records, signals: set<FolderSignalRow>, tenant: string,
                            ids: set<string>): Database
  {
    Database(s, InvalidateRecords(s, records, tenant, ids), SignalsOutside(signals, ids))
  }

  // Folders

  function AfterFolderUpsert(s: Sources, f: string, row: FolderSource): Sources {
    s.(folders := s.folders[f := row])
  }

  ghost function IndexFolder(db: Database, f: string, row: FolderSource): Database {
    if !AcceptsFolder(db.sources, f, row) then db
    else
      var s := AfterFolderUpsert(db.sources, f, row);
      var ids := AffectedByUpsert(CurrentFolder(db.sources, row.tenant, f), ActiveParents(s, row.tenant), f, row);
      Invalidate(s, db.records[f := FreshRecord(s, db.records, row.tenant, f, Pending)], db.signals, row.tenant, ids)
  }

  lemma {:induction false} FolderUpsertConfined(db: Database, f: string, row: FolderSource, s: Sources,
                                                ids: set<string>, record: FolderRecord)
    requires Consistent(db) && !row.deleted && !record.deleted && s == AfterFolderUpsert(db.sources, f, row)
    requires f in db.sources.folders ==> db.sources.folders[f].tenant == row.tenant
    requires ids == AffectedByUpsert(CurrentFolder(db.sources, row.tenant, f), ActiveParents(s, row.tenant), f, row)
    ensures Confined(db, s, db.records[f := record], row.tenant, ids)
  {
    FolderUpsertFrame(db.sources, s, row.tenant, f, row);
    AffectedAreActive(CurrentFolder(db.sources, row.tenant, f), ActiveParents(s, row.tenant), f, row);
    forall x | x in ids
      ensures ActiveFolder(s, x) && s.folders[x].tenant == row.tenant && ActiveRecord(db.records[f := record], x)
    {
      assert x in ActiveParents(s, row.tenant);
      if x != f {
        assert ActiveFolder(db.sources, x);
      }
    }
  }

  lemma {:induction false} IndexFolderKeeps(db: Database, f: string, row: FolderSource)
    requires Consistent(db) && !row.deleted
    requires f in db.sources.folders ==> db.sources.folders[f].tenant == row.tenant
    ensures Keeps(db, IndexFolder(db, f, row))
  {
    if AcceptsFolder(db.sources, f, row) {
      var s := AfterFolderUpsert(db.sources, f, row);
      var ids := AffectedByUpsert(CurrentFolder(db.sources, row.tenant, f), ActiveParents(s, row.tenant), f, row);
      var record := FreshRecord(s, db.records, row.tenant, f, Pending);
      FolderUpsertConfined(db, f, row, s, ids, record);
      InvalidationKeeps(db, s, db.records[f := record], row.tenant, ids);
    }
  }

  lemma {:induction false} AffectedAreActive(previous: Option<FolderSource>, g: Parents, f: string, row: FolderSource)
    requires f in g
    ensures AffectedByUpsert(previous, g, f, row) <= g.Keys
  {
    ClosuresAreActive(g, {f}, f);
    if previous.Some? && previous.value.content.parent.Some? {
      ClosuresAreActive(g, {previous.value.content.parent.value}, f);
    }
  }

  ghost function DeleteFolder(db: Database, f: string): Database {
    if !ActiveFolder(db.sources, f) || f !in db.records then db
    else
      var row := db.sources.folders[f];
      var ids := AncestorFolderIds(ActiveParents(db.sources, row.tenant), {f});
      Invalidate(AfterFolderUpsert(db.sources, f, row.(deleted := true)),
                 db.records[f := db.records[f].(deleted := true)],
                 SignalsOutside(db.signals, {f}), row.tenant, ids - {f})
  }

  lemma {:induction false} FolderDeleteConfined(db: Database, f: string, s: Sources, ids: set<string>,
                                                record: FolderRecord)
    requires Consistent(db) && ActiveFolder(db.sources, f) && record.deleted
    requires s == AfterFolderUpsert(db.sources, f, db.sources.folders[f].(deleted := true))
    requires ids == AncestorFolderIds(ActiveParents(db.sources, db.sources.folders[f].tenant), {f})
    ensures f in ids && Confined(db, s, db.records[f := record], db.sources.folders[f].tenant, ids)
  {
    var tenant := db.sources.folders[f].tenant;
    FolderDeleteFrame(db.sources, s, tenant, f);
    AncestorsStayActive(db, tenant, f, ids);
    forall x | x in ids
      ensures ActiveFolder(s, x) <==> ActiveRecord(db.records[f := record], x)
      ensures ActiveFolder(s, x) ==> s.folders[x].tenant == tenant
    {
      if x != f {
        assert s.folders[x] == db.sources.folders[x];
      }
    }
  }

  lemma {:induction false} AncestorsStayActive(db: Database, tenant: string, f: string, ids: set<string>)
    requires Consistent(db) && ids == AncestorFolderIds(ActiveParents(db.sources, tenant), {f})
    ensures forall x | x in ids ::
              ActiveFolder(db.sources, x) && db.sources.folders[x].tenant == tenant && ActiveRecord(db.records, x)
  {
    ClosuresAreActive(ActiveParents(db.sources, tenant), {f}, f);
    forall x | x in ids
      ensures ActiveFolder(db.sources, x) && db.sources.folders[x].tenant == tenant && ActiveRecord(db.records, x)
    {
      assert x in ActiveParents(db.sources, tenant);
      assert ActiveFolder(db.sources, x);
    }
  }

  lemma {:induction false} DeleteFolderKeeps(db: Database, f: string)
    requires Consistent(db)
    ensures Keeps(db, DeleteFolder(db, f))
  {
    if ActiveFolder(db.sources, f) {
      var row := db.sources.folders[f];
      var ids := AncestorFolderIds(ActiveParents(db.sources, row.tenant), {f});
      var s := AfterFolderUpsert(db.sources, f, row.(deleted := true));
      assert ActiveRecord(db.records, f);
      var record := db.records[f].(deleted := true);
      FolderDeleteConfined(db, f, s, ids, record);
      InvalidationKeeps(db, s, db.records[f := record], row.tenant, ids);
      DeletedNeedsNoRecompute(s, db.records[f := record], db.signals, row.tenant, ids, f);
    }
  }

  lemma {:induction false} DeletedNeedsNoRecompute(s: Sources, records: Records, signals: set<FolderSignalRow>,
                                                   tenant: string, ids: set<string>, f: string)
    requires f in ids && f in records && records[f].deleted
    ensures Invalidate(s, records, SignalsOutside(signals, {f}), tenant, ids - {f})
         == Invalidate(s, records, signals, tenant, ids)
  {
    assert SignalsOutside(SignalsOutside(signals, {f}), ids - {f}) == SignalsOutside(signals, ids);
  }

  // Documents

  function AfterDocumentUpsert(s: Sources, tenant: string, d: string, snapshot: Snapshot): Sources {
    s.(documents := s.documents[d := DocumentRow(tenant, snapshot)])
  }

  function AfterProjection(s: Sources, tenant: string, d: string, snapshot: Snapshot,
                           folderIds: Option<seq<string>>): Sources
  {
    s.(documentIndex := s.documentIndex[d := DocumentIndex(snapshot.indexDigest, snapshot.signalDigest, false)],
       relations := if folderIds.None? then s.relations
                    else RelationsWithout(s.relations, tenant, d) +
                         MembershipsOf(tenant, d, NormalizedFolderIds(folderIds.value)))
  }

  ghost function ProjectDocument(db: Database, tenant: string, d: string, snapshot: Snapshot,
                                 folderIds: Option<seq<string>>): Database
  {
    var s := AfterProjection(db.sources, tenant, d, snapshot, folderIds);
    Invalidate(s, db.records, db.signals, tenant, FoldersAround(db.sources, s, tenant, d))
  }

  ghost function IndexDocument(db: Database, tenant: string, d: string, snapshot: Snapshot,
                               folderIds: Option<seq<string>>): Database
  {
    if !AcceptsDocument(db.sources, d, snapshot) then db
    else
      var upserted := db.(sources := AfterDocumentUpsert(db.sources, tenant, d, snapshot));
      if snapshot.chunks == [] then DeleteDocument(upserted, d)
      else ProjectDocument(upserted, tenant, d, snapshot, folderIds)
  }

  function AfterDocumentDelete(s: Sources, d: string): Sources
    requires d in s.documents
  {
    s.(documents := s.documents[d := s.documents[d].(deleted := true)],
       documentIndex := if d in s.documentIndex then s.documentIndex[d := s.documentIndex[d].(deleted := true)]
                        else s.documentIndex,
       relations := RelationsWithout(s.relations, s.documents[d].tenant, d))
  }

  function AffectedByDelete(s: Sources, signals: set<FolderSignalRow>, tenant: string, d: string): set<string> {
    AncestorFolderIds(ActiveParents(s, tenant), FolderIdsForDocument(s, tenant, d) + FoldersReferring(signals, d))
  }

  ghost function DeleteDocument(db: Database, d: string): Database {
    if d !in db.sources.documents || db.sources.documents[d].deleted then db
    else
      var tenant := db.sources.documents[d].tenant;
      Invalidate(AfterDocumentDelete(db.sources, d), db.records, db.signals, tenant,
                 AffectedByDelete(db.sources, db.signals, tenant, d))
  }

  lemma {:induction false} DocumentChangeConfined(db: Database, s: Sources, tenant: string, d: string,
                                                  seeds: set<string>)
    requires Consistent(db) && DocumentMayDiffer(db.sources, s, tenant, d) && d in s.documents
    requires FolderIdsForDocument(db.sources, tenant, d) + FolderIdsForDocument(s, tenant, d) <= seeds
    ensures Confined(db, s, db.records, tenant, AncestorFolderIds(ActiveParents(db.sources, tenant), seeds))
  {
    var g := ActiveParents(db.sources, tenant);
    var ids := AncestorFolderIds(g, seeds);
    AncestorsMonotone(g, FolderIdsForDocument(db.sources, tenant, d) + FolderIdsForDocument(s, tenant, d), seeds);
    DocumentChangeFrame(db.sources, s, tenant, d, ids);
    ClosuresAreActive(g, seeds, "");
    forall x | x in ids ensures ActiveFolder(s, x) && s.folders[x].tenant == tenant && ActiveRecord(db.records, x) {
      assert x in g;
      assert ActiveFolder(db.sources, x);
    }
  }

  lemma {:induction false} DocumentChangeKeeps(db: Database, s: Sources, tenant: string, d: string, seeds: set<string>)
    requires Consistent(db) && DocumentMayDiffer(db.sources, s, tenant, d) && d in s.documents
    requires FolderIdsForDocument(db.sources, tenant, d) + FolderIdsForDocument(s, tenant, d) <= seeds
    ensures Keeps(db, Invalidate(s, db.records, db.signals, tenant,
                                 AncestorFolderIds(ActiveParents(db.sources, tenant), seeds)))
  {
    DocumentChangeConfined(db, s, tenant, d, seeds);
    InvalidationKeeps(db, s, db.records, tenant, AncestorFolderIds(ActiveParents(db.sources, tenant), seeds));
  }

  lemma {:induction false} AncestorsMonotone(g: Parents, few: set<string>, many: set<string>)
    requires few <= many
    ensures AncestorFolderIds(g, few) <= AncestorFolderIds(g, many)
  {
    forall a | a in AncestorFolderIds(g, few) ensures a in AncestorFolderIds(g, many) {
      AncestorsAreReachable(g, few, a);
      AncestorsAreReachable(g, many, a);
    }
  }

  lemma {:induction false} IndexDocumentKeeps(db: Database, tenant: string, d: string, snapshot: Snapshot,
                                              folderIds: Option<seq<string>>)
    requires Consistent(db) && (d in db.sources.documents ==> db.sources.documents[d].tenant == tenant)
    ensures Keeps(db, IndexDocument(db, tenant, d, snapshot, folderIds))
  {
    if AcceptsDocument(db.sources, d, snapshot) {
      if snapshot.chunks == [] {
        EmptyDocumentKeeps(db, tenant, d, snapshot);
      } else {
        var s := AfterProjection(AfterDocumentUpsert(db.sources, tenant, d, snapshot), tenant, d, snapshot, folderIds);
        OnlyDocumentDiffers(db.sources, tenant, d, snapshot, folderIds);
        assert ActiveParents(AfterDocumentUpsert(db.sources, tenant, d, snapshot), tenant)
            == ActiveParents(db.sources, tenant);
        DocumentChangeKeeps(db, s, tenant, d,
                            FolderIdsForDocument(db.sources, tenant, d) + FolderIdsForDocument(s, tenant, d));
      }
    }
  }

  lemma {:induction false} OnlyDocumentDiffers(s: Sources, tenant: string, d: string, snapshot: Snapshot,
                                               folderIds: Option<seq<string>>)
    requires d in s.documents ==> s.documents[d].tenant == tenant
    ensures var upserted := AfterDocumentUpsert(s, tenant, d, snapshot);
            DocumentMayDiffer(s, AfterProjection(upserted, tenant, d, snapshot, folderIds), tenant, d)
  {
  }

  lemma {:induction false} EmptyDocumentKeeps(db: Database, tenant: string, d: string, snapshot: Snapshot)
    requires Consistent(db) && (d in db.sources.documents ==> db.sources.documents[d].tenant == tenant)
    ensures Keeps(db, DeleteDocument(db.(sources := AfterDocumentUpsert(db.sources, tenant, d, snapshot)), d))
  {
    var upserted := AfterDocumentUpsert(db.sources, tenant, d, snapshot);
    var s := AfterDocumentDelete(upserted, d);
    assert ActiveParents(upserted, tenant) == ActiveParents(db.sources, tenant);
    assert FolderIdsForDocument(s, tenant, d) == {};
    DocumentChangeKeeps(db, s, tenant, d, FolderIdsForDocument(upserted, tenant, d) + FoldersReferring(db.signals, d));
  }

  lemma {:induction false} DeleteDocumentKeeps(db: Database, d: string)
    requires Consistent(db)
    ensures Keeps(db, DeleteDocument(db, d))
  {
    if d in db.sources.documents && !db.sources.documents[d].deleted {
      var tenant := db.sources.documents[d].tenant;
      var s := AfterDocumentDelete(db.sources, d);
      assert FolderIdsForDocument(s, tenant, d) == {};
      DocumentChangeKeeps(db, s, tenant, d,
                          FolderIdsForDocument(db.sources, tenant, d) + FoldersReferring(db.signals, d));
    }
  }

  /** Once an active document is deleted, no stored folder signal refers to it. */
  lemma {:induction false} NoSignalRefersToDeleted(db: Database, d: string, row: FolderSignalRow)
    requires Consistent(db)
    requires d in db.sources.documents && !db.sources.documents[d].deleted
    requires row in DeleteDocument(db, d).signals
    ensures row.relatedDocumentId != Some(d)
  {
    var tenant := db.sources.documents[d].tenant;
    var g := ActiveParents(db.sources, tenant);
    var seeds := FolderIdsForDocument(db.sources, tenant, d) + FoldersReferring(db.signals, d);
    ClosuresAreActive(g, seeds, "");
    assert SignalCurrent(db.sources, db.records, row);
    assert row.folderId !in seeds * g.Keys;
    assert row.relatedDocumentId == Some(d) ==> row.folderId in g && row.folderId in seeds;
  }

  // Signals and the documents they are about

  /** Every stored signal that is about a document is about an active one. */
  ghost predicate RelatedActive(db: Database) {
    forall row | row in db.signals :: AboutActive(db.sources, row)
  }

  predicate AboutActive(s: Sources, row: FolderSignalRow) {
    row.relatedDocumentId.Some? ==>
      row.relatedDocumentId.value in s.documents && !s.documents[row.relatedDocumentId.value].deleted
  }

  /** Dropping signals and keeping the documents active that the others are about. */
  lemma {:induction false} FewerSignals(db: Database, db': Database)
    requires RelatedActive(db) && db'.signals <= db.signals
    requires forall row | row in db'.signals && AboutActive(db.sources, row) :: AboutActive(db'.sources, row)
    ensures RelatedActive(db')
  {
  }

  lemma {:induction false} FolderCommandsKeepRelated(db: Database, f: string, row: FolderSource)
    requires RelatedActive(db)
    ensures RelatedActive(IndexFolder(db, f, row)) && RelatedActive(DeleteFolder(db, f))
  {
    FewerSignals(db, IndexFolder(db, f, row));
    FewerSignals(db, DeleteFolder(db, f));
  }

  lemma {:induction false} DeleteDocumentKeepsRelated(db: Database, d: string)
    requires Consistent(db) && RelatedActive(db)
    ensures RelatedActive(DeleteDocument(db, d))
  {
    var db' := DeleteDocument(db, d);
    if d in db.sources.documents && !db.sources.documents[d].deleted {
      forall row | row in db'.signals ensures row.relatedDocumentId != Some(d) {
        NoSignalRefersToDeleted(db, d, row);
      }
      FewerSignals(db, db');
    }
  }

  /** Indexing keeps it too: a document without text takes the signals about it along. */
  lemma {:induction false} IndexDocumentKeepsRelated(db: Database, tenant: string, d: string, snapshot: Snapshot,
                                                     folderIds: Option<seq<string>>)
    requires Consistent(db) && RelatedActive(db)
    requires d in db.sources.documents ==> db.sources.documents[d].tenant == tenant
    ensures RelatedActive(IndexDocument(db, tenant, d, snapshot, folderIds))
  {
    if AcceptsDocument(db.sources, d, snapshot) {
      var upserted := db.(sources := AfterDocumentUpsert(db.sources, tenant, d, snapshot));
      FewerSignals(db, upserted);
      if snapshot.chunks == [] {
        UpsertKeepsConsistent(db, tenant, d, snapshot);
        DeleteDocumentKeepsRelated(upserted, d);
      } else {
        FewerSignals(upserted, ProjectDocument(upserted, tenant, d, snapshot, folderIds));
      }
    }
  }

  lemma {:induction false} UpsertKeepsConsistent(db: Database, tenant: string, d: string, snapshot: Snapshot)
    requires Consistent(db) && (d in db.sources.documents ==> db.sources.documents[d].tenant == tenant)
    ensures Consistent(db.(sources := AfterDocumentUpsert(db.sources, tenant, d, snapshot)))
  {
    var s := AfterDocumentUpsert(db.sources, tenant, d, snapshot);
    forall row | row in db.signals ensures SignalCurrent(s, db.records, row) {
      assert SignalCurrent(db.sources, db.records, row);
    }
    forall f ensures ActiveFolder(s, f) <==> ActiveRecord(db.records, f) {
      assert ActiveFolder(db.sources, f) <==> ActiveRecord(db.records, f);
    }
  }

  // Folder signals

  /** `replace_folder_signals` goes ahead for an active folder whose current digest is the expected one. */
  predicate ExpectsSignals(db: Database, tenant: string, f: string, expected: Digest) {
    && CurrentFolder(db.sources, tenant, f).Some?
    && f in db.records && !db.records[f].deleted
    && db.records[f].signalDigest == expected
  }

  predicate HasText(s: string) {
    exists i | 0 <= i < |s| :: s[i] != ' '
  }

  /**
   The constraints of the tables: ids and version are not blank, a row refers to a folder and a document
   that have a row, deleted or not, and no signal id is used twice. Anything else rolls the transaction back.
   */
  predicate Storable(db: Database, f: string, rows: seq<FolderSignalRow>, version: string) {
    && HasText(version)
    && (forall row | row in rows ::
          && HasText(row.signalId) && row.folderId in db.sources.folders
          && (row.relatedDocumentId.Some? ==> row.relatedDocumentId.value in db.sources.documents))
    && (forall i, j | 0 <= i < j < |rows| :: rows[i].signalId != rows[j].signalId)
    && (forall row, other | row in rows && other in SignalsOutside(db.signals, {f}) :: row.signalId != other.signalId)
  }

  predicate AcceptsSignals(db: Database, tenant: string, f: string, rows: seq<FolderSignalRow>, expected: Digest,
                           version: string)
  {
    ExpectsSignals(db, tenant, f, expected) && Storable(db, f, rows, version)
  }

  function ReplaceFolderSignals(db: Database, tenant: string, f: string, rows: seq<FolderSignalRow>, expected: Digest,
                                version: string): Database
  {
    if !AcceptsSignals(db, tenant, f, rows, expected, version) then db
    else
      db.(records := db.records[f := db.records[f].(status := Ready, generationVersion := version)],
          signals := SignalsOutside(db.signals, {f}) + set row | row in rows)
  }

  /** Whether a row to be stored will be current once `f` is ready under `expected`. */
  ghost predicate FitsFolder(db: Database, f: string, expected: Digest, row: FolderSignalRow)
    requires f in db.sources.folders
  {
    if row.folderId == f then row.digest == expected && RelatedKnown(db.sources, row)
    else SignalCurrent(db.sources, db.records, row)
  }

  /**
   Nothing compares the rows with the folder and digest they are stored for. The stored signals stay
   current exactly when the command is rejected, or each row of `f` carries the expected digest and is
   about a document of the tenant, if any, and each row of another folder is current there already.
   */
  lemma {:induction false} ReplaceFolderSignalsConsistent(db: Database, tenant: string, f: string,
                                                          rows: seq<FolderSignalRow>, expected: Digest, version: string)
    requires Consistent(db)
    ensures Consistent(ReplaceFolderSignals(db, tenant, f, rows, expected, version))
       <==> (AcceptsSignals(db, tenant, f, rows, expected, version) ==>
               forall row | row in rows :: FitsFolder(db, f, expected, row))
  {
    var db' := ReplaceFolderSignals(db, tenant, f, rows, expected, version);
    if AcceptsSignals(db, tenant, f, rows, expected, version) {
      forall row | row in rows
        ensures SignalCurrent(db'.sources, db'.records, row) <==> FitsFolder(db, f, expected, row)
      {
      }
      forall row | row in db'.signals && row !in rows ensures SignalCurrent(db'.sources, db'.records, row) {
        assert SignalCurrent(db.sources, db.records, row);
      }
      forall x ensures ActiveFolder(db'.sources, x) <==> ActiveRecord(db'.records, x) {
        assert ActiveFolder(db.sources, x) <==> ActiveRecord(db.records, x);
      }
    }
  }

  /** All stored signals are about active documents afterwards exactly when the command is rejected or its own are. */
  lemma {:induction false} ReplaceFolderSignalsRelated(db: Database, tenant: string, f: string,
                                                       rows: seq<FolderSignalRow>, expected: Digest, version: string)
    requires RelatedActive(db)
    ensures RelatedActive(ReplaceFolderSignals(db, tenant, f, rows, expected, version))
       <==> (AcceptsSignals(db, tenant, f, rows, expected, version) ==>
               forall row | row in rows :: AboutActive(db.sources, row))
  {
    var db' := ReplaceFolderSignals(db, tenant, f, rows, expected, version);
    if AcceptsSignals(db, tenant, f, rows, expected, version) {
      assert (set row | row in rows) <= db'.signals && db'.sources == db.sources;
    }
  }

  predicate IsMember(d: string, digest: Digest) {
    digest.FolderSignalDigest? && exists i | 0 <= i < |digest.members| :: digest.members[i].documentId == d
  }

  lemma {:induction false} MemberIsListed(ids: seq<string>, documents: map<string, DocumentSource>,
                                          index: map<string, DocumentIndex>, i: nat)
    requires Text.Elements(ids) <= documents.Keys && i < |MembersInOrder(ids, documents, index)|
    ensures |MembersInOrder(ids, documents, index)| == |ids|
    ensures MembersInOrder(ids, documents, index)[i].documentId in documents
  {
    var n := |ids| - 1;
    assert ids[n] in Text.Elements(ids);
    if i < |MembersInOrder(ids[..n], documents, index)| {
      MemberIsListed(ids[..n], documents, index, i);
    }
    MembersCount(ids, documents, index);
  }

  lemma {:induction false} MembersCount(ids: seq<string>, documents: map<string, DocumentSource>,
                                        index: map<string, DocumentIndex>)
    requires Text.Elements(ids) <= documents.Keys
    ensures |MembersInOrder(ids, documents, index)| == |ids|
  {
    if ids != [] {
      MembersCount(ids[..|ids| - 1], documents, index);
    }
  }

  /**
   While digests are current, whatever a folder's digest lists is an active document of its active
   subtree. So a signal about a member of the digest it was generated from, stored under that digest,
   is about an active document.
   */
  lemma {:induction false} MembersAreActive(db: Database, f: string, d: string)
    requires DigestsCurrent(db) && ActiveFolder(db.sources, f) && IsMember(d, db.records[f].signalDigest)
    ensures d in SubtreeDocuments(db.sources, db.sources.folders[f].tenant, f)
    ensures d in db.sources.documents && !db.sources.documents[d].deleted
    ensures db.sources.documents[d].tenant == db.sources.folders[f].tenant
  {
    assert RecordCurrent(db.sources, db.records, f);
    var documents := SubtreeDocuments(db.sources, db.sources.folders[f].tenant, f);
    var index := CurrentIndex(db.sources, documents.Keys);
    var members := db.records[f].signalDigest.members;
    assert members == MembersInOrder(Text.Sorted(documents.Keys), documents, index);
    var i :| 0 <= i < |members| && members[i].documentId == d;
    MemberIsListed(Text.Sorted(documents.Keys), documents, index, i);
  }

  /**
   Storing signals writes the generation version, which is an input of the digest, without
   recomputing the digest. All digests stay current exactly when the version stays the one in use.
   */
  lemma {:induction false} ReplaceFolderSignalsDigests(db: Database, tenant: string, f: string,
                                                       rows: seq<FolderSignalRow>, expected: Digest, version: string)
    requires DigestsCurrent(db)
    ensures DigestsCurrent(ReplaceFolderSignals(db, tenant, f, rows, expected, version))
       <==> (AcceptsSignals(db, tenant, f, rows, expected, version) ==>
               EffectiveVersion(version) == GenerationVersion(db.records, f))
  {
    var db' := ReplaceFolderSignals(db, tenant, f, rows, expected, version);
    if AcceptsSignals(db, tenant, f, rows, expected, version) {
      assert RecordCurrent(db.sources, db.records, f);
      if EffectiveVersion(version) == GenerationVersion(db.records, f) {
        forall x | ActiveFolder(db'.sources, x) ensures RecordCurrent(db'.sources, db'.records, x) {
          assert RecordCurrent(db.sources, db.records, x);
        }
      } else {
        assert !RecordCurrent(db'.sources, db'.records, f);
      }
    }
  }

  // Runs

  datatype Command =
    | IndexFolderCommand(folderId: string, row: FolderSource)
    | DeleteFolderCommand(folderId: string)
    | IndexDocumentCommand(tenant: string, documentId: string, snapshot: Snapshot, folderIds: Option<seq<string>>)
    | DeleteDocumentCommand(documentId: string)
    | ReplaceFolderSignalsCommand(
        tenant: string, folderId: string, rows: seq<FolderSignalRow>, expected: Digest, version: string)

  ghost function Apply(db: Database, c: Command): Database {
    match c
    case IndexFolderCommand(f, row) => IndexFolder(db, f, row)
    case DeleteFolderCommand(f) => DeleteFolder(db, f)
    case IndexDocumentCommand(tenant, d, snapshot, folderIds) => IndexDocument(db, tenant, d, snapshot, folderIds)
    case DeleteDocumentCommand(d) => DeleteDocument(db, d)
    case ReplaceFolderSignalsCommand(tenant, f, rows, expected, version) =>
      ReplaceFolderSignals(db, tenant, f, rows, expected, version)
  }

  /** An id never changes its tenant. */
  ghost predicate Admissible(db: Database, c: Command) {
    match c
    case IndexFolderCommand(f, row) =>
      !row.deleted && (f in db.sources.folders ==> db.sources.folders[f].tenant == row.tenant)
    case IndexDocumentCommand(tenant, d, _, _) =>
      d in db.sources.documents ==> db.sources.documents[d].tenant == tenant
    case _ => true
  }

  ghost predicate StoresSignals(db: Database, c: Command) {
    c.ReplaceFolderSignalsCommand? && AcceptsSignals(db, c.tenant, c.folderId, c.rows, c.expected, c.version)
  }

  ghost predicate StoresFittingSignals(db: Database, c: Command) {
    StoresSignals(db, c) ==> forall row | row in c.rows :: FitsFolder(db, c.folderId, c.expected, row)
  }

  ghost predicate StoresActiveRelations(db: Database, c: Command) {
    StoresSignals(db, c) ==> forall row | row in c.rows :: AboutActive(db.sources, row)
  }

  ghost predicate KeepsGenerationVersion(db: Database, c: Command) {
    StoresSignals(db, c) ==> EffectiveVersion(c.version) == GenerationVersion(db.records, c.folderId)
  }

  /** What the generator of folder signals produces: signals of the folder, about members of the digest it read. */
  ghost predicate StoresOwnSignals(c: Command) {
    c.ReplaceFolderSignalsCommand? ==> forall row | row in c.rows ::
      && row.folderId == c.folderId && row.digest == c.expected
      && (row.relatedDocumentId.Some? ==> IsMember(row.relatedDocumentId.value, c.expected))
  }

  /** Generated signals meet both conditions on stored rows. */
  lemma {:induction false} OwnSignalsFit(db: Database, c: Command)
    requires DigestsCurrent(db) && StoresOwnSignals(c)
    ensures StoresFittingSignals(db, c) && StoresActiveRelations(db, c)
  {
    if StoresSignals(db, c) {
      forall row | row in c.rows ensures FitsFolder(db, c.folderId, c.expected, row) && AboutActive(db.sources, row) {
        if row.relatedDocumentId.Some? {
          MembersAreActive(db, c.folderId, row.relatedDocumentId.value);
        }
      }
    }
  }

  ghost function Run(db: Database, commands: seq<Command>): Database
    decreases |commands|
  {
    if commands == [] then db else Run(Apply(db, commands[0]), commands[1..])
  }

  /** `allowed` holds of each command of a run in the state the run has reached. */
  ghost predicate Throughout(db: Database, commands: seq<Command>, allowed: (Database, Command) -> bool)
    decreases |commands|
  {
    commands != [] ==> allowed(db, commands[0]) && Throughout(Apply(db, commands[0]), commands[1..], allowed)
  }

  const EMPTY := Database(Sources(map[], map[], map[], {}), map[], {})

  lemma {:induction false} ApplyKeeps(db: Database, c: Command)
    requires Consistent(db) && Admissible(db, c)
    ensures Consistent(Apply(db, c)) <==> StoresFittingSignals(db, c)
    ensures DigestsCurrent(db) ==> (DigestsCurrent(Apply(db, c)) <==> KeepsGenerationVersion(db, c))
    ensures RelatedActive(db) ==> (RelatedActive(Apply(db, c)) <==> StoresActiveRelations(db, c))
  {
    match c
    case IndexFolderCommand(f, row) =>
      IndexFolderKeeps(db, f, row);
      if RelatedActive(db) {
        FolderCommandsKeepRelated(db, f, row);
      }
    case DeleteFolderCommand(f) =>
      DeleteFolderKeeps(db, f);
      if RelatedActive(db) {
        FewerSignals(db, DeleteFolder(db, f));
      }
    case IndexDocumentCommand(tenant, d, snapshot, folderIds) =>
      IndexDocumentKeeps(db, tenant, d, snapshot, folderIds);
      if RelatedActive(db) {
        IndexDocumentKeepsRelated(db, tenant, d, snapshot, folderIds);
      }
    case DeleteDocumentCommand(d) =>
      DeleteDocumentKeeps(db, d);
      if RelatedActive(db) {
        DeleteDocumentKeepsRelated(db, d);
      }
    case ReplaceFolderSignalsCommand(tenant, f, rows, expected, version) =>
      ReplaceFolderSignalsConsistent(db, tenant, f, rows, expected, version);
      if DigestsCurrent(db) {
        ReplaceFolderSignalsDigests(db, tenant, f, rows, expected, version);
      }
      if RelatedActive(db) {
        ReplaceFolderSignalsRelated(db, tenant, f, rows, expected, version);
      }
  }

  ghost predicate Sound(db: Database, c: Command) {
    Admissible(db, c) && StoresFittingSignals(db, c)
  }

  lemma {:induction false} RunKeeps(db: Database, commands: seq<Command>)
    requires Consistent(db) && Throughout(db, commands, Sound)
    ensures Consistent(Run(db, commands))
    ensures DigestsCurrent(db) && Throughout(db, commands, KeepsGenerationVersion) ==> DigestsCurrent(Run(db, commands))
    ensures RelatedActive(db) && Throughout(db, commands, StoresActiveRelations) ==> RelatedActive(Run(db, commands))
    decreases |commands|
  {
    if commands != [] {
      ApplyKeeps(db, commands[0]);
      RunKeeps(Apply(db, commands[0]), commands[1..]);
    }
  }

  /**
   In every state that a run from the empty database reaches, every stored signal is current; if no
   generation version was changed, every stored digest equals the recomputed one; and if signals were
   only ever stored about active documents, no stored signal is about a deleted one.
   */
  lemma {:induction false} ReachableStatesAreCurrent(commands: seq<Command>)
    requires Throughout(EMPTY, commands, Sound)
    ensures var db := Run(EMPTY, commands);
            && Consistent(db)
            && (Throughout(EMPTY, commands, KeepsGenerationVersion) ==> DigestsCurrent(db))
            && (Throughout(EMPTY, commands, StoresActiveRelations) ==> RelatedActive(db))
  {
    assert Consistent(EMPTY) && DigestsCurrent(EMPTY) && RelatedActive(EMPTY);
    RunKeeps(EMPTY, commands);
  }

  ghost predicate Generated(db: Database, c: Command) {
    Admissible(db, c) && KeepsGenerationVersion(db, c) && StoresOwnSignals(c)
  }

  lemma {:induction false} GeneratedRunKeeps(db: Database, commands: seq<Command>)
    requires Consistent(db) && DigestsCurrent(db) && RelatedActive(db) && Throughout(db, commands, Generated)
    ensures var db' := Run(db, commands);
            Consistent(db') && DigestsCurrent(db') && RelatedActive(db')
    decreases |commands|
  {
    if commands != [] {
      OwnSignalsFit(db, commands[0]);
      ApplyKeeps(db, commands[0]);
      GeneratedRunKeeps(Apply(db, commands[0]), commands[1..]);
    }
  }

  /**
   With signals as they are generated - of the folder they are stored for, from its digest, about
   members of that digest, under the generation version in use - all three invariants hold in every
   reachable state, with no condition on what the documents do in the meantime.
   */
  lemma {:induction false} GeneratedSignalsNeverOutliveInputs(commands: seq<Command>)
    requires Throughout(EMPTY, commands, Generated)
    ensures var db := Run(EMPTY, commands);
            Consistent(db) && DigestsCurrent(db) && RelatedActive(db)
  {
    assert Consistent(EMPTY) && DigestsCurrent(EMPTY) && RelatedActive(EMPTY);
    GeneratedRunKeeps(EMPTY, commands);
  }
}
