/**
 What the digest of a folder depends on, told from the tables: the folder's own row, the documents
 in the folders below it, and their contents. Two digests are equal exactly when all of it agrees, so
 that a digest which was read earlier goes out of date with any change, and with nothing else.
 */
module FolderDigestInputs {
  import opened Common
  import opened FolderGraph
  import opened FolderDigests
  import opened Outbox
  import Steps = IndexingSteps
  import Text

  // Paths through the folder rows

  predicate ActiveIn(s: Sources, tenant: string, f: string) {
    f in s.folders && s.folders[f].tenant == tenant && !s.folders[f].deleted
  }

  /** Each folder of the path is active, and its row points at the next one. */
  predicate IsPath(s: Sources, tenant: string, path: seq<string>) {
    && path != []
    && (forall i | 0 <= i < |path| :: ActiveIn(s, tenant, path[i]))
    && (forall i | 0 <= i < |path| - 1 :: s.folders[path[i]].content.parent == Some(path[i + 1]))
  }

  ghost predicate Leads(s: Sources, tenant: string, path: seq<string>, x: string, f: string) {
    IsPath(s, tenant, path) && path[0] == x && path[|path| - 1] == f
  }

  /** Folder `x` lies in the active subtree of `f`. */
  ghost predicate Under(s: Sources, tenant: string, x: string, f: string) {
    exists path :: Leads(s, tenant, path, x, f)
  }

  lemma {:induction false} PathGoesUp(s: Sources, tenant: string, path: seq<string>)
    requires IsPath(s, tenant, path)
    ensures Up(ActiveParents(s, tenant), path[0], |path| - 1) == Some(path[|path| - 1])
  {
    if |path| > 1 {
      var g, rest := ActiveParents(s, tenant), path[1..];
      assert forall i | 0 <= i < |rest| :: rest[i] == path[i + 1];
      assert IsPath(s, tenant, rest);
      assert ParentOf(g, path[0]) == Some(path[1]);
      PathGoesUp(s, tenant, rest);
    }
  }

  lemma {:induction false} UpIsAPath(s: Sources, tenant: string, x: string, n: nat) returns (path: seq<string>)
    requires Up(ActiveParents(s, tenant), x, n).Some?
    ensures Leads(s, tenant, path, x, Up(ActiveParents(s, tenant), x, n).value)
    decreases n
  {
    var g := ActiveParents(s, tenant);
    if n == 0 {
      path := [x];
    } else {
      var rest := UpIsAPath(s, tenant, ParentOf(g, x).value, n - 1);
      path := [x] + rest;
      assert path[1] == rest[0];
      forall i | 0 <= i < |path| - 1 ensures s.folders[path[i]].content.parent == Some(path[i + 1]) {
        assert i > 0 ==> path[i] == rest[i - 1] && path[i + 1] == rest[i];
      }
    }
  }

  lemma {:induction false} UnderIsReaches(s: Sources, tenant: string, x: string, f: string)
    ensures Under(s, tenant, x, f) <==> Reaches(ActiveParents(s, tenant), x, f)
  {
    var g := ActiveParents(s, tenant);
    if Under(s, tenant, x, f) {
      var path :| Leads(s, tenant, path, x, f);
      PathGoesUp(s, tenant, path);
      assert Up(g, x, |path| - 1) == Some(f);
    }
    if Reaches(g, x, f) {
      var n: nat :| Up(g, x, n) == Some(f);
      var path := UpIsAPath(s, tenant, x, n);
    }
  }

  // The inputs of a digest

  /** An active document of the tenant, in some folder of the active subtree of `f`. */
  ghost predicate HasDocument(s: Sources, tenant: string, f: string, d: string) {
    && d in s.documents && s.documents[d].tenant == tenant && !s.documents[d].deleted
    && exists x :: Membership(tenant, d, x) in s.relations && Under(s, tenant, x, f)
  }

  lemma {:induction false} SubtreeDocumentsAre(s: Sources, tenant: string, f: string, d: string)
    ensures d in SubtreeDocuments(s, tenant, f) <==> HasDocument(s, tenant, f, d)
    ensures d in SubtreeDocuments(s, tenant, f) ==> SubtreeDocuments(s, tenant, f)[d] == s.documents[d]
  {
    var g := ActiveParents(s, tenant);
    forall x ensures x in SubtreeFolderIds(g, f) <==> Under(s, tenant, x, f) {
      SubtreeIsReachable(g, f, x);
      UnderIsReaches(s, tenant, x, f);
    }
    if HasDocument(s, tenant, f, d) {
      var x :| Membership(tenant, d, x) in s.relations && Under(s, tenant, x, f);
      assert Membership(tenant, d, x).folderId in SubtreeFolderIds(g, f);
    }
    if d in SubtreeDocuments(s, tenant, f) {
      var m :| m in s.relations && m.tenant == tenant && m.folderId in SubtreeFolderIds(g, f) && m.documentId == d;
      assert m == Membership(tenant, d, m.folderId);
    }
  }

  /** The folder has the same content in both states, or is active in neither. */
  predicate SameRow(s: Sources, s': Sources, tenant: string, f: string) {
    && (ActiveIn(s, tenant, f) <==> ActiveIn(s', tenant, f))
    && (ActiveIn(s, tenant, f) ==> s.folders[f].content == s'.folders[f].content)
  }

  function IndexDigestOf(s: Sources, d: string): string {
    if d in s.documentIndex && !s.documentIndex[d].deleted then s.documentIndex[d].indexDigest else ""
  }

  function SignalDigestOf(s: Sources, d: string): string {
    if d in s.documentIndex && !s.documentIndex[d].deleted then s.documentIndex[d].signalDigest else ""
  }

  /** The document has the same content, and is indexed with the same result. */
  predicate SameDocument(s: Sources, s': Sources, d: string)
    requires d in s.documents && d in s'.documents
  {
    && s.documents[d].contentDigest == s'.documents[d].contentDigest
    && IndexDigestOf(s, d) == IndexDigestOf(s', d) && SignalDigestOf(s, d) == SignalDigestOf(s', d)
  }

  ghost predicate SameDocuments(s: Sources, s': Sources, tenant: string, f: string) {
    && (forall d :: HasDocument(s, tenant, f, d) <==> HasDocument(s', tenant, f, d))
    && (forall d | HasDocument(s, tenant, f, d) && HasDocument(s', tenant, f, d) :: SameDocument(s, s', d))
  }

  lemma {:induction false} MembersAt(ids: seq<string>, documents: map<string, DocumentSource>,
                                     index: map<string, DocumentIndex>)
    requires Text.Elements(ids) <= documents.Keys
    ensures |MembersInOrder(ids, documents, index)| == |ids|
    ensures forall i | 0 <= i < |ids| ::
              ids[i] in documents
              && MembersInOrder(ids, documents, index)[i]
                 == Member(ids[i], documents[ids[i]].contentDigest,
                           if ids[i] in index then index[ids[i]].indexDigest else "",
                           if ids[i] in index then index[ids[i]].signalDigest else "")
  {
    if ids != [] {
      var n := |ids| - 1;
      assert ids[n] in Text.Elements(ids);
      MembersAt(ids[..n], documents, index);
    }
  }

  /** What a member says of its document. */
  predicate Says(member: Member, d: string, document: DocumentSource, index: map<string, DocumentIndex>) {
    && member.documentId == d && member.contentDigest == document.contentDigest
    && member.indexDigest == (if d in index then index[d].indexDigest else "")
    && member.signalDigest == (if d in index then index[d].signalDigest else "")
  }

  /** The members of a set of documents: one for each, in the order of `ids`. */
  ghost predicate ListMembers(members: seq<Member>, ids: seq<string>, documents: map<string, DocumentSource>,
                              index: map<string, DocumentIndex>)
  {
    && |members| == |ids| && Text.Elements(ids) == documents.Keys
    && forall i | 0 <= i < |members| :: ids[i] in documents && Says(members[i], ids[i], documents[ids[i]], index)
  }

  lemma {:induction false} MembersAreListed(documents: map<string, DocumentSource>, index: map<string, DocumentIndex>)
    ensures ListMembers(Members(documents, index), Text.Sorted(documents.Keys), documents, index)
  {
    MembersAt(Text.Sorted(documents.Keys), documents, index);
  }

  lemma {:induction false} SameIds(members: seq<Member>, ids: seq<string>, documents: map<string, DocumentSource>,
                                   index: map<string, DocumentIndex>, ids': seq<string>,
                                   documents': map<string, DocumentSource>, index': map<string, DocumentIndex>)
    requires ListMembers(members, ids, documents, index) && ListMembers(members, ids', documents', index')
    ensures ids == ids' && documents.Keys == documents'.Keys
  {
    forall i | 0 <= i < |ids| ensures ids[i] == ids'[i] {
      assert Says(members[i], ids[i], documents[ids[i]], index);
      assert Says(members[i], ids'[i], documents'[ids'[i]], index');
    }
  }

  /** Equal lists say the same of every document, and lists that say the same are equal. */
  lemma {:induction false} EqualListsSay(members: seq<Member>, ids: seq<string>, documents: map<string, DocumentSource>,
                                         index: map<string, DocumentIndex>, documents': map<string, DocumentSource>,
                                         index': map<string, DocumentIndex>, d: string)
    requires ListMembers(members, ids, documents, index) && ListMembers(members, ids, documents', index')
    requires d in documents
    ensures d in documents'
    ensures exists member :: Says(member, d, documents[d], index) && Says(member, d, documents'[d], index')
  {
    assert d in Text.Elements(ids);
    var i :| 0 <= i < |ids| && ids[i] == d;
    assert Says(members[i], d, documents'[d], index');
  }

  lemma {:induction false} SayingListsEqual(members: seq<Member>, members': seq<Member>, ids: seq<string>,
                                            documents: map<string, DocumentSource>, index: map<string, DocumentIndex>,
                                            documents': map<string, DocumentSource>, index': map<string, DocumentIndex>)
    requires ListMembers(members, ids, documents, index) && ListMembers(members', ids, documents', index')
    requires forall d | d in documents && d in documents' ::
               exists member :: Says(member, d, documents[d], index) && Says(member, d, documents'[d], index')
    ensures members == members'
  {
    forall i | 0 <= i < |members| ensures members[i] == members'[i] {
      assert ids[i] in documents && ids[i] in documents';
      var member :| Says(member, ids[i], documents[ids[i]], index) && Says(member, ids[i], documents'[ids[i]], index');
      assert Says(members[i], ids[i], documents[ids[i]], index);
      assert Says(members'[i], ids[i], documents'[ids[i]], index');
    }
  }

  /** Documents looked up in two states are said to be the same exactly when they are. */
  lemma {:induction false} SaidTheSame(s: Sources, s': Sources, tenant: string, f: string, d: string)
    requires HasDocument(s, tenant, f, d) && HasDocument(s', tenant, f, d)
    ensures var documents, documents' := SubtreeDocuments(s, tenant, f), SubtreeDocuments(s', tenant, f);
            && d in documents && d in documents'
            && ((exists member :: Says(member, d, documents[d], CurrentIndex(s, documents.Keys))
                                  && Says(member, d, documents'[d], CurrentIndex(s', documents'.Keys)))
                <==> SameDocument(s, s', d))
  {
    SubtreeDocumentsAre(s, tenant, f, d);
    SubtreeDocumentsAre(s', tenant, f, d);
    var documents := SubtreeDocuments(s, tenant, f);
    var member := Member(d, s.documents[d].contentDigest, IndexDigestOf(s, d), SignalDigestOf(s, d));
    assert Says(member, d, documents[d], CurrentIndex(s, documents.Keys));
  }

  lemma {:induction false} SameKeys(s: Sources, s': Sources, tenant: string, f: string)
    ensures SubtreeDocuments(s, tenant, f).Keys == SubtreeDocuments(s', tenant, f).Keys
       <==> forall d :: HasDocument(s, tenant, f, d) <==> HasDocument(s', tenant, f, d)
  {
    forall d
      ensures d in SubtreeDocuments(s, tenant, f) <==> HasDocument(s, tenant, f, d)
      ensures d in SubtreeDocuments(s', tenant, f) <==> HasDocument(s', tenant, f, d)
    {
      SubtreeDocumentsAre(s, tenant, f, d);
      SubtreeDocumentsAre(s', tenant, f, d);
    }
  }

  lemma {:induction false} ListedSame(s: Sources, s': Sources, tenant: string, f: string, members: seq<Member>,
                                      ids: seq<string>)
    requires var documents, documents' := SubtreeDocuments(s, tenant, f), SubtreeDocuments(s', tenant, f);
             && ListMembers(members, ids, documents, CurrentIndex(s, documents.Keys))
             && ListMembers(members, ids, documents', CurrentIndex(s', documents'.Keys))
    ensures SameDocuments(s, s', tenant, f)
  {
    var documents, documents' := SubtreeDocuments(s, tenant, f), SubtreeDocuments(s', tenant, f);
    var index, index' := CurrentIndex(s, documents.Keys), CurrentIndex(s', documents'.Keys);
    SameKeys(s, s', tenant, f);
    forall d | HasDocument(s, tenant, f, d) && HasDocument(s', tenant, f, d) ensures SameDocument(s, s', d) {
      SubtreeDocumentsAre(s, tenant, f, d);
      EqualListsSay(members, ids, documents, index, documents', index', d);
      SaidTheSame(s, s', tenant, f, d);
    }
  }

  lemma {:induction false} SameListed(s: Sources, s': Sources, tenant: string, f: string, members: seq<Member>,
                                      members': seq<Member>, ids: seq<string>)
    requires var documents, documents' := SubtreeDocuments(s, tenant, f), SubtreeDocuments(s', tenant, f);
             && ListMembers(members, ids, documents, CurrentIndex(s, documents.Keys))
             && ListMembers(members', ids, documents', CurrentIndex(s', documents'.Keys))
    requires SameDocuments(s, s', tenant, f)
    ensures members == members'
  {
    var documents, documents' := SubtreeDocuments(s, tenant, f), SubtreeDocuments(s', tenant, f);
    var index, index' := CurrentIndex(s, documents.Keys), CurrentIndex(s', documents'.Keys);
    forall d | d in documents && d in documents'
      ensures exists member :: Says(member, d, documents[d], index) && Says(member, d, documents'[d], index')
    {
      SubtreeDocumentsAre(s, tenant, f, d);
      SubtreeDocumentsAre(s', tenant, f, d);
      SaidTheSame(s, s', tenant, f, d);
    }
    SayingListsEqual(members, members', ids, documents, index, documents', index');
  }

  lemma {:induction false} SameMembers(s: Sources, s': Sources, tenant: string, f: string)
    ensures var documents, documents' := SubtreeDocuments(s, tenant, f), SubtreeDocuments(s', tenant, f);
            Members(documents, CurrentIndex(s, documents.Keys))
            == Members(documents', CurrentIndex(s', documents'.Keys))
            <==> SameDocuments(s, s', tenant, f)
  {
    var documents, documents' := SubtreeDocuments(s, tenant, f), SubtreeDocuments(s', tenant, f);
    var index, index' := CurrentIndex(s, documents.Keys), CurrentIndex(s', documents'.Keys);
    var members, members' := Members(documents, index), Members(documents', index');
    var ids, ids' := Text.Sorted(documents.Keys), Text.Sorted(documents'.Keys);
    MembersAreListed(documents, index);
    MembersAreListed(documents', index');
    if members == members' {
      SameIds(members, ids, documents, index, ids', documents', index');
      ListedSame(s, s', tenant, f, members, ids);
    }
    if SameDocuments(s, s', tenant, f) {
      SameKeys(s, s', tenant, f);
      SameListed(s, s', tenant, f, members, members', ids);
    }
  }

  /**
   Digests of a folder in two states are equal exactly when the generation versions, the folder's own
   row, the documents of its subtree, their contents and their index records are all the same.
   */
  lemma {:induction false} SignalDigestDetermines(s: Sources, s': Sources, tenant: string, f: string, version: string,
                                                  version': string)
    ensures SignalDigest(s, tenant, f, version) == SignalDigest(s', tenant, f, version') <==>
            version == version' && SameRow(s, s', tenant, f) && SameDocuments(s, s', tenant, f)
  {
    SameMembers(s, s', tenant, f);
    assert IndexDigest(s, tenant, f) == IndexDigest(s', tenant, f) <==> SameRow(s, s', tenant, f);
  }

  // The stored digests

  /** No transaction changes the tenant or the generation version of a folder that stays active. */
  lemma {:induction false} VersionKept(db: Database, c: Steps.Command, f: string)
    requires Consistent(db) && Steps.Admissible(db, c) && Steps.KeepsGenerationVersion(db, c)
    requires ActiveFolder(db.sources, f) && ActiveFolder(Steps.Apply(db, c).sources, f)
    ensures Steps.Apply(db, c).sources.folders[f].tenant == db.sources.folders[f].tenant
    ensures GenerationVersion(Steps.Apply(db, c).records, f) == GenerationVersion(db.records, f)
  {
    assert ActiveRecord(db.records, f);
  }

  /**
   The stored digest of a folder changes exactly when its row, the documents of its subtree, their
   contents or their index records do: by which transaction does not matter.
   */
  lemma {:induction false} StoredDigestFollowsInputs(db: Database, c: Steps.Command, f: string)
    requires Consistent(db) && DigestsCurrent(db)
    requires Steps.Admissible(db, c) && Steps.KeepsGenerationVersion(db, c)
    requires ActiveFolder(db.sources, f) && ActiveFolder(Steps.Apply(db, c).sources, f)
    ensures var db', tenant := Steps.Apply(db, c), db.sources.folders[f].tenant;
            && f in db.records && f in db'.records
            && (db'.records[f].signalDigest == db.records[f].signalDigest <==>
                  SameRow(db.sources, db'.sources, tenant, f) && SameDocuments(db.sources, db'.sources, tenant, f))
  {
    var db', tenant := Steps.Apply(db, c), db.sources.folders[f].tenant;
    VersionKept(db, c, f);
    Steps.ApplyKeeps(db, c);
    assert RecordCurrent(db.sources, db.records, f) && RecordCurrent(db'.sources, db'.records, f);
    SignalDigestDetermines(db.sources, db'.sources, tenant, f, GenerationVersion(db.records, f),
                           GenerationVersion(db'.records, f));
  }

  /**
   Signals generated from the digest that a folder had before a transaction are stored after it only if
   nothing they were generated from has changed. Otherwise the command changes nothing, and the folder
   waits for new signals, with none of the old ones left.
   */
  lemma {:induction false} OutdatedSignalsAreRejected(db: Database, c: Steps.Command, f: string,
                                                      rows: seq<FolderSignalRow>, version: string)
    requires Consistent(db) && DigestsCurrent(db) && !c.ReplaceFolderSignalsCommand? && Steps.Admissible(db, c)
    requires ActiveFolder(db.sources, f) && ActiveFolder(Steps.Apply(db, c).sources, f)
    ensures var db', tenant := Steps.Apply(db, c), db.sources.folders[f].tenant;
            var same := SameRow(db.sources, db'.sources, tenant, f)
                        && SameDocuments(db.sources, db'.sources, tenant, f);
            && f in db.records && f in db'.records
            && (Steps.ExpectsSignals(db', tenant, f, db.records[f].signalDigest) <==> same)
            && (!same ==>
                  && Steps.ReplaceFolderSignals(db', tenant, f, rows, db.records[f].signalDigest, version) == db'
                  && db'.records[f].status == Pending && forall row | row in db'.signals :: row.folderId != f)
  {
    var db' := Steps.Apply(db, c);
    StoredDigestFollowsInputs(db, c, f);
    VersionKept(db, c, f);
    Steps.ApplyKeeps(db, c);
    assert ActiveRecord(db'.records, f);
    ChangedIsPending(db, c, f);
    forall row | row in db'.signals && db'.records[f].status == Pending ensures row.folderId != f {
      assert SignalCurrent(db'.sources, db'.records, row);
    }
  }

  lemma {:induction false} ChangedIsPending(db: Database, c: Steps.Command, f: string)
    requires !c.ReplaceFolderSignalsCommand? && f in db.records && f in Steps.Apply(db, c).records
    requires !Steps.Apply(db, c).records[f].deleted && !db.records[f].deleted
    ensures var db' := Steps.Apply(db, c);
            db'.records[f].signalDigest != db.records[f].signalDigest ==> db'.records[f].status == Pending
  {
  }

  /**
   An accepted command that brings another content, or another index or signal result, to a document of
   a folder's subtree gives the folder a new digest, whatever it does to the document's memberships.
   */
  lemma {:induction false} EditedDocumentIsNoticed(db: Database, tenant: string, d: string, snapshot: Snapshot,
                                                   folderIds: Option<seq<string>>, f: string)
    requires Consistent(db) && DigestsCurrent(db) && ActiveFolder(db.sources, f)
    requires db.sources.folders[f].tenant == tenant && HasDocument(db.sources, tenant, f, d)
    requires Steps.AcceptsDocument(db.sources, d, snapshot) && snapshot.chunks != []
    requires snapshot.contentDigest != db.sources.documents[d].contentDigest
             || snapshot.indexDigest != IndexDigestOf(db.sources, d)
             || snapshot.signalDigest != SignalDigestOf(db.sources, d)
    ensures var db' := Steps.IndexDocument(db, tenant, d, snapshot, folderIds);
            && f in db.records && f in db'.records
            && db'.records[f].signalDigest != db.records[f].signalDigest
            && !Steps.ExpectsSignals(db', tenant, f, db.records[f].signalDigest)
  {
    var c := Steps.IndexDocumentCommand(tenant, d, snapshot, folderIds);
    var db' := Steps.Apply(db, c);
    assert !SameDocuments(db.sources, db'.sources, tenant, f) by {
      assert HasDocument(db'.sources, tenant, f, d) ==> !SameDocument(db.sources, db'.sources, d);
    }
    StoredDigestFollowsInputs(db, c, f);
  }

  /** So does deleting it, or sending it without text. */
  lemma {:induction false} DeletedDocumentIsNoticed(db: Database, c: Steps.Command, tenant: string, d: string,
                                                    f: string)
    requires Consistent(db) && DigestsCurrent(db) && ActiveFolder(db.sources, f)
    requires db.sources.folders[f].tenant == tenant && HasDocument(db.sources, tenant, f, d)
    requires c == Steps.DeleteDocumentCommand(d)
             || (c.IndexDocumentCommand? && c.tenant == tenant && c.documentId == d && c.snapshot.chunks == []
                 && Steps.AcceptsDocument(db.sources, d, c.snapshot))
    ensures var db' := Steps.Apply(db, c);
            && f in db.records && f in db'.records
            && db'.records[f].signalDigest != db.records[f].signalDigest
            && !Steps.ExpectsSignals(db', tenant, f, db.records[f].signalDigest)
  {
    var db' := Steps.Apply(db, c);
    assert !HasDocument(db'.sources, tenant, f, d);
    assert !SameDocuments(db.sources, db'.sources, tenant, f);
    StoredDigestFollowsInputs(db, c, f);
  }
}
