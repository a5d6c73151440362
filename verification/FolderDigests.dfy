/**
 The rows the indexing transactions read and write, and the digest a folder's record must hold:
 one recomputed from scratch over the active documents of the folder's active subtree.

 A digest is modelled by the value it is computed from, so it is injective by construction.
 */
module FolderDigests {
  import opened Common
  import opened FolderGraph
  import Text

  datatype FolderContent = FolderContent(parent: Option<string>, description: string)

  datatype FolderSource = FolderSource(
    tenant: string, version: string, updatedAt: int, content: FolderContent, deleted: bool)

  datatype DocumentSource = DocumentSource(
    tenant: string, version: string, updatedAt: int, contentDigest: string, deleted: bool)

  datatype DocumentIndex = DocumentIndex(indexDigest: string, signalDigest: string, deleted: bool)

  datatype Membership = Membership(tenant: string, documentId: string, folderId: string)

  datatype Member = Member(documentId: string, contentDigest: string, indexDigest: string, signalDigest: string)

  datatype Digest =
    | FolderIndexDigest(folderId: string, source: Option<FolderContent>)
    | FolderSignalDigest(folderIndex: Digest, members: seq<Member>, generationVersion: string)

  datatype Status = Empty | Pending | Ready | Failed

  datatype FolderRecord = FolderRecord(
    indexDigest: Digest, signalDigest: Digest, generationVersion: string, status: Status, deleted: bool)

  datatype FolderSignalRow = FolderSignalRow(
    signalId: string, folderId: string, digest: Digest, relatedDocumentId: Option<string>)

  type Records = map<string, FolderRecord>

  /** The source tables. */
  datatype Sources = Sources(
    folders: map<string, FolderSource>,
    documents: map<string, DocumentSource>,
    documentIndex: map<string, DocumentIndex>,
    relations: set<Membership>)

  const DEFAULT_GENERATION_VERSION := "1"

  function ActiveParents(s: Sources, tenant: string): Parents {
    map f | f in s.folders && s.folders[f].tenant == tenant && !s.folders[f].deleted :: s.folders[f].content.parent
  }

  function CurrentFolder(s: Sources, tenant: string, f: string): Option<FolderSource> {
    if f in s.folders && s.folders[f].tenant == tenant && !s.folders[f].deleted then Some(s.folders[f]) else None
  }

  function DocumentIdsForFolders(s: Sources, tenant: string, ids: set<string>): set<string> {
    set m | m in s.relations && m.tenant == tenant && m.folderId in ids :: m.documentId
  }

  function FolderIdsForDocument(s: Sources, tenant: string, d: string): set<string> {
    set m | m in s.relations && m.tenant == tenant && m.documentId == d :: m.folderId
  }

  function CurrentDocuments(s: Sources, tenant: string, ids: set<string>): map<string, DocumentSource> {
    map d | d in ids && d in s.documents && s.documents[d].tenant == tenant && !s.documents[d].deleted
      :: s.documents[d]
  }

  function CurrentIndex(s: Sources, ids: set<string>): map<string, DocumentIndex> {
    map d | d in ids && d in s.documentIndex && !s.documentIndex[d].deleted :: s.documentIndex[d]
  }

  function GenerationVersion(records: Records, f: string): string {
    if f in records && !records[f].deleted then EffectiveVersion(records[f].generationVersion)
    else DEFAULT_GENERATION_VERSION
  }

  /** `version or "1"` */
  function EffectiveVersion(version: string): string {
    if version == "" then DEFAULT_GENERATION_VERSION else version
  }

  // The reference digests

  function IndexDigest(s: Sources, tenant: string, f: string): Digest {
    FolderIndexDigest(f, match CurrentFolder(s, tenant, f) case Some(row) => Some(row.content) case None => None)
  }

  function MemberOf(d: string, document: DocumentSource, index: map<string, DocumentIndex>): Member {
    Member(d, document.contentDigest,
           if d in index then index[d].indexDigest else "",
           if d in index then index[d].signalDigest else "")
  }

  /** The members in the order of their document ids. */
  ghost function Members(documents: map<string, DocumentSource>, index: map<string, DocumentIndex>): seq<Member> {
    MembersInOrder(Text.Sorted(documents.Keys), documents, index)
  }

  function MembersInOrder(ids: seq<string>, documents: map<string, DocumentSource>,
                          index: map<string, DocumentIndex>): seq<Member>
    requires Text.Elements(ids) <= documents.Keys
  {
    if ids == [] then []
    else
      var n := |ids| - 1;
      assert ids[n] in Text.Elements(ids);
      MembersInOrder(ids[..n], documents, index) + [MemberOf(ids[n], documents[ids[n]], index)]
  }

  /** The active documents of the active subtree of `f`. */
  function SubtreeDocuments(s: Sources, tenant: string, f: string): map<string, DocumentSource> {
    CurrentDocuments(s, tenant, DocumentIdsForFolders(s, tenant, SubtreeFolderIds(ActiveParents(s, tenant), f)))
  }

  /** The digest recomputed from scratch. */
  ghost function SignalDigest(s: Sources, tenant: string, f: string, generationVersion: string): Digest {
    var documents := SubtreeDocuments(s, tenant, f);
    FolderSignalDigest(IndexDigest(s, tenant, f), Members(documents, CurrentIndex(s, documents.Keys)),
                       generationVersion)
  }

  ghost function FreshRecord(s: Sources, records: Records, tenant: string, f: string, status: Status): FolderRecord {
    var version := GenerationVersion(records, f);
    FolderRecord(IndexDigest(s, tenant, f), SignalDigest(s, tenant, f, version), version, status, false)
  }

  // The invariants

  ghost predicate ActiveFolder(s: Sources, f: string) {
    f in s.folders && !s.folders[f].deleted
  }

  ghost predicate ActiveRecord(records: Records, f: string) {
    f in records && !records[f].deleted
  }

  /** The record of `f` holds the digests that a recomputation from scratch gives. */
  ghost predicate RecordCurrent(s: Sources, records: Records, f: string)
    requires f in s.folders
  {
    && ActiveRecord(records, f)
    && records[f].indexDigest == IndexDigest(s, s.folders[f].tenant, f)
    && records[f].signalDigest == SignalDigest(s, s.folders[f].tenant, f, GenerationVersion(records, f))
  }

  /** A stored signal belongs to an active folder that is ready under the digest the signal was stored under. */
  ghost predicate SignalCurrent(s: Sources, records: Records, row: FolderSignalRow) {
    && ActiveFolder(s, row.folderId)
    && ActiveRecord(records, row.folderId)
    && records[row.folderId].status == Ready
    && records[row.folderId].signalDigest == row.digest
    && RelatedKnown(s, row)
  }

  /** The document a signal is about, if any, has a row in the tenant of the folder. */
  predicate RelatedKnown(s: Sources, row: FolderSignalRow)
    requires row.folderId in s.folders
  {
    row.relatedDocumentId.Some? ==>
      && row.relatedDocumentId.value in s.documents
      && s.documents[row.relatedDocumentId.value].tenant == s.folders[row.folderId].tenant
  }

  datatype Database = Database(sources: Sources, records: Records, signals: set<FolderSignalRow>)

  /** Exactly the active folders have an active record, and no stored signal outlives its input. */
  ghost predicate Consistent(db: Database) {
    && (forall f :: ActiveFolder(db.sources, f) <==> ActiveRecord(db.records, f))
    && (forall row | row in db.signals :: SignalCurrent(db.sources, db.records, row))
  }

  /** The record of every active folder holds the digests that a recomputation from scratch gives. */
  ghost predicate DigestsCurrent(db: Database) {
    forall f | ActiveFolder(db.sources, f) :: RecordCurrent(db.sources, db.records, f)
  }

  // What an invalidation of a set of folders leaves to show

  /** `mark_folder_signals_pending`: the digests and the status change, the generation version does not. */
  function Marked(row: FolderRecord, record: FolderRecord): FolderRecord {
    row.(indexDigest := record.indexDigest, signalDigest := record.signalDigest, status := Pending)
  }

  /** The invalidation of `ids`: their active records are recomputed over `s` and become pending. */
  ghost function InvalidateRecords(s: Sources, records: Records, tenant: string, ids: set<string>): Records {
    MarkAll(records, ids, f => FreshRecord(s, records, tenant, f, Pending))
  }

  ghost function MarkAll(records: Records, ids: set<string>, recomputed: string -> FolderRecord): Records {
    map f | f in records :: if f in ids && !records[f].deleted then Marked(records[f], recomputed(f)) else records[f]
  }

  /** One turn of the loop over the invalidated folders. */
  lemma {:induction false} MarkOneMore(records: Records, recomputed: string -> FolderRecord, done: set<string>,
                                       f: string)
    ensures var now := MarkAll(records, done, recomputed);
            MarkAll(records, done + {f}, recomputed)
            == if ActiveRecord(records, f) then now[f := Marked(now[f], recomputed(f))] else now
  {
  }

  lemma {:induction false} MarkingKeepsVersions(records: Records, ids: set<string>, recomputed: string -> FolderRecord,
                                                f: string)
    ensures GenerationVersion(MarkAll(records, ids, recomputed), f) == GenerationVersion(records, f)
    ensures ActiveRecord(MarkAll(records, ids, recomputed), f) <==> ActiveRecord(records, f)
  {
  }

  function SignalsOutside(signals: set<FolderSignalRow>, ids: set<string>): set<FolderSignalRow> {
    set row | row in signals && row.folderId !in ids
  }

  /** Outside `ids`, a folder is active and has its digests in one state exactly as in the other. */
  ghost predicate SameOutside(s: Sources, s': Sources, ids: set<string>) {
    forall f | f !in ids ::
      && (ActiveFolder(s, f) <==> ActiveFolder(s', f))
      && (ActiveFolder(s, f) ==>
            s.folders[f].tenant == s'.folders[f].tenant && SameInputs(s, s', s.folders[f].tenant, f))
  }

  ghost predicate SameInputs(s: Sources, s': Sources, tenant: string, f: string) {
    && IndexDigest(s, tenant, f) == IndexDigest(s', tenant, f)
    && SubtreeDocuments(s, tenant, f) == SubtreeDocuments(s', tenant, f)
    && CurrentIndex(s, SubtreeDocuments(s, tenant, f).Keys) == CurrentIndex(s', SubtreeDocuments(s, tenant, f).Keys)
  }

  /** Document rows are never removed and never change tenant. */
  ghost predicate DocumentsKept(s: Sources, s': Sources) {
    forall d | d in s.documents :: d in s'.documents && s'.documents[d].tenant == s.documents[d].tenant
  }

  /**
   A transaction that turned the sources into `s'` and the records into `upserted` is confined to `ids`:
   every other folder kept its inputs and its record, and those in `ids` are active with their record.
   */
  ghost predicate Confined(db: Database, s': Sources, upserted: Records, tenant: string, ids: set<string>) {
    && SameOutside(db.sources, s', ids) && DocumentsKept(db.sources, s')
    && (forall f | f !in ids :: f in db.records <==> f in upserted)
    && (forall f | f !in ids && f in upserted :: upserted[f] == db.records[f])
    && (forall f | f in ids :: ActiveFolder(s', f) <==> ActiveRecord(upserted, f))
    && (forall f | f in ids && ActiveFolder(s', f) :: s'.folders[f].tenant == tenant)
  }

  lemma {:induction false} InvalidationKeepsSignals(db: Database, s': Sources, upserted: Records, tenant: string,
                                                    ids: set<string>)
    requires Consistent(db) && Confined(db, s', upserted, tenant, ids)
    ensures Consistent(Database(s', InvalidateRecords(s', upserted, tenant, ids), SignalsOutside(db.signals, ids)))
  {
    var after := InvalidateRecords(s', upserted, tenant, ids);
    forall row | row in SignalsOutside(db.signals, ids) ensures SignalCurrent(s', after, row) {
      assert SignalCurrent(db.sources, db.records, row);
    }
    forall f ensures ActiveFolder(s', f) <==> ActiveRecord(after, f) {
      assert ActiveFolder(db.sources, f) <==> ActiveRecord(db.records, f);
    }
  }

  lemma {:induction false} InvalidationKeepsDigests(db: Database, s': Sources, upserted: Records, tenant: string,
                                                    ids: set<string>)
    requires Consistent(db) && DigestsCurrent(db) && Confined(db, s', upserted, tenant, ids)
    ensures DigestsCurrent(Database(s', InvalidateRecords(s', upserted, tenant, ids), SignalsOutside(db.signals, ids)))
  {
    var after := InvalidateRecords(s', upserted, tenant, ids);
    forall f | ActiveFolder(s', f) ensures RecordCurrent(s', after, f) {
      assert GenerationVersion(after, f) == GenerationVersion(upserted, f);
      if f !in ids {
        assert RecordCurrent(db.sources, db.records, f);
      }
    }
  }

  /**
   Recomputing only the folders in `ids` is enough for a transaction that is confined to them: if all
   digests were current before, they all are afterwards.
   */
  lemma {:induction false} InvalidationKeeps(db: Database, s': Sources, upserted: Records, tenant: string,
                                             ids: set<string>)
    requires Consistent(db) && Confined(db, s', upserted, tenant, ids)
    ensures Keeps(db, Database(s', InvalidateRecords(s', upserted, tenant, ids), SignalsOutside(db.signals, ids)))
  {
    InvalidationKeepsSignals(db, s', upserted, tenant, ids);
    if DigestsCurrent(db) {
      InvalidationKeepsDigests(db, s', upserted, tenant, ids);
    }
  }

  /** The step from `db` to `db'` keeps the invariant, and keeps all digests current. */
  ghost predicate Keeps(db: Database, db': Database) {
    Consistent(db') && (DigestsCurrent(db) ==> DigestsCurrent(db'))
  }
}
