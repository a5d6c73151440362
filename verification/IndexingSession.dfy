/**
 The indexing transactions as they are carried out: row by row on the source tables, the folder
 index records, the folder signals and the outbox. Each one does to the database what the step of
 the same name in `IndexingSteps` says.
 */
module IndexingSession {
  import opened Common
  import opened FolderGraph
  import opened FolderDigests
  import opened FolderFrames
  import opened Outbox
  import Steps = IndexingSteps
  import Text

  /** The events an invalidation announces: one for every invalidated folder that has an active record. */
  ghost function InvalidationEvents(s: Sources, records: Records, tenant: string, ids: seq<string>): seq<Event> {
    if ids == [] then []
    else
      var f := ids[|ids| - 1];
      InvalidationEvents(s, records, tenant, ids[..|ids| - 1]) +
      if f in records && !records[f].deleted then
        [SignalsInvalidated(tenant, f, FreshRecord(s, records, tenant, f, Pending).signalDigest,
                            GenerationVersion(records, f))]
      else []
  }

  /** The events an accepted folder command announces after its own. */
  ghost function FolderInvalidations(db: Database, f: string, row: FolderSource): seq<Event> {
    var s := Steps.AfterFolderUpsert(db.sources, f, row);
    var ids := AffectedByUpsert(CurrentFolder(db.sources, row.tenant, f), ActiveParents(s, row.tenant), f, row);
    InvalidationEvents(s, db.records[f := FreshRecord(s, db.records, row.tenant, f, Pending)], row.tenant,
                       Text.Sorted(ids))
  }

  ghost function FolderDeletionEvents(db: Database, f: string): seq<Event>
    requires f in db.sources.folders && f in db.records
  {
    var row := db.sources.folders[f];
    [FolderDeleted(row.tenant, f, row.version)] + InvalidationEvents(
      Steps.AfterFolderUpsert(db.sources, f, row.(deleted := true)),
      db.records[f := db.records[f].(deleted := true)], row.tenant,
      Text.Sorted(AncestorFolderIds(ActiveParents(db.sources, row.tenant), {f}) - {f}))
  }

  ghost function DocumentInvalidations(db: Database, tenant: string, d: string, snapshot: Snapshot,
                                       folderIds: Option<seq<string>>): seq<Event>
  {
    var s := Steps.AfterProjection(db.sources, tenant, d, snapshot, folderIds);
    InvalidationEvents(s, db.records, tenant, Text.Sorted(FoldersAround(db.sources, s, tenant, d)))
  }

  ghost function DeletionEvents(db: Database, d: string): seq<Event>
    requires d in db.sources.documents
  {
    var row := db.sources.documents[d];
    var ids := Text.Sorted(Steps.AffectedByDelete(db.sources, db.signals, row.tenant, d));
    [DocumentDeleted(row.tenant, d, row.version, ids)] +
    InvalidationEvents(Steps.AfterDocumentDelete(db.sources, d), db.records, row.tenant, ids)
  }

  /** The events of an accepted document command. */
  ghost function IndexingEvents(db: Database, tenant: string, d: string, snapshot: Snapshot,
                                folderIds: Option<seq<string>>): seq<Event>
  {
    var upserted := db.(sources := Steps.AfterDocumentUpsert(db.sources, tenant, d, snapshot));
    if snapshot.chunks == [] then DeletionEvents(upserted, d)
    else
      [DocumentIndexed(tenant, d, snapshot)] +
      (if folderIds.Some? then [RelationsIndexed(tenant, d, snapshot.version, folderIds.value)] else []) +
      DocumentInvalidations(upserted, tenant, d, snapshot, folderIds)
  }

  /** The events a transaction appends to the outbox. */
  ghost function EventsOf(db: Database, c: Steps.Command): seq<Event> {
    match c
    case IndexFolderCommand(f, row) =>
      if Steps.AcceptsFolder(db.sources, f, row) then
        [FolderIndexed(row.tenant, f, row)] + FolderInvalidations(db, f, row)
      else []
    case DeleteFolderCommand(f) =>
      if ActiveFolder(db.sources, f) && f in db.records then FolderDeletionEvents(db, f) else []
    case IndexDocumentCommand(tenant, d, snapshot, folderIds) =>
      if Steps.AcceptsDocument(db.sources, d, snapshot) then IndexingEvents(db, tenant, d, snapshot, folderIds) else []
    case DeleteDocumentCommand(d) =>
      if d in db.sources.documents && !db.sources.documents[d].deleted then DeletionEvents(db, d) else []
    case ReplaceFolderSignalsCommand(_, _, _, _, _) => []
  }

  lemma {:induction false} InvalidationsAreOthers(s: Sources, records: Records, tenant: string, ids: seq<string>)
    ensures forall e | e in InvalidationEvents(s, records, tenant, ids) :: e.SignalsInvalidated?
  {
    if ids != [] {
      InvalidationsAreOthers(s, records, tenant, ids[..|ids| - 1]);
    }
  }

  lemma {:induction false} DocumentInvalidationsAreOthers(db: Database, tenant: string, d: string, snapshot: Snapshot,
                                                          folderIds: Option<seq<string>>)
    ensures forall e | e in DocumentInvalidations(db, tenant, d, snapshot, folderIds) :: e.SignalsInvalidated?
  {
    var s := Steps.AfterProjection(db.sources, tenant, d, snapshot, folderIds);
    InvalidationsAreOthers(s, db.records, tenant, Text.Sorted(FoldersAround(db.sources, s, tenant, d)));
  }

  /** `folder_signal_input_digest`: the members are listed in the order of their document ids. */
  method SignalInputDigest(documents: map<string, DocumentSource>, index: map<string, DocumentIndex>,
                           folderIndex: Digest, generationVersion: string) returns (digest: Digest)
    ensures digest == FolderSignalDigest(folderIndex, Members(documents, index), generationVersion)
  {
    var ids := Text.SortIds(documents.Keys);
    assert Text.Elements(ids) == documents.Keys;
    var members := CollectMembers(ids, documents, index);
    digest := FolderSignalDigest(folderIndex, members, generationVersion);
  }

  method CollectMembers(ids: seq<string>, documents: map<string, DocumentSource>, index: map<string, DocumentIndex>)
    returns (members: seq<Member>)
    requires Text.Elements(ids) <= documents.Keys
    ensures members == MembersInOrder(ids, documents, index)
  {
    members := [];
    for i := 0 to |ids|
      invariant Text.Elements(ids[..i]) <= documents.Keys
      invariant members == MembersInOrder(ids[..i], documents, index)
    {
      Text.ElementsUpTo(ids, i);
      assert ids[i] in Text.Elements(ids);
      members := members + [MemberOf(ids[i], documents[ids[i]], index)];
    }
    assert ids[..|ids|] == ids;
  }

  class Session {
    var folders: map<string, FolderSource>
    var documents: map<string, DocumentSource>
    var documentIndex: map<string, DocumentIndex>
    var relations: set<Membership>
    var records: Records
    var signals: set<FolderSignalRow>
    var outbox: seq<Event>

    function Tables(): Sources
      reads this
    {
      Sources(folders, documents, documentIndex, relations)
    }

    function Db(): Database
      reads this
    {
      Database(Tables(), records, signals)
    }

    ghost predicate Valid()
      reads this
    {
      Consistent(Db())
    }

    constructor ()
      ensures Valid() && DigestsCurrent(Db()) && Db() == Steps.EMPTY && outbox == []
    {
      folders, documents, documentIndex, relations, records, signals, outbox := map[], map[], map[], {}, map[], {}, [];
    }

    method FolderIndexRecord(tenant: string, f: string) returns (record: FolderRecord)
      ensures record == FreshRecord(Tables(), records, tenant, f, Pending)
    {
      var generationVersion := GenerationVersion(records, f);
      var folderIndex := IndexDigest(Tables(), tenant, f);
      var subtree := SubtreeFolderIds(ActiveParents(Tables(), tenant), f);
      var current := CurrentDocuments(Tables(), tenant, DocumentIdsForFolders(Tables(), tenant, subtree));
      var index := CurrentIndex(Tables(), current.Keys);
      var digest := SignalInputDigest(current, index, folderIndex, generationVersion);
      record := FolderRecord(folderIndex, digest, generationVersion, Pending, false);
    }

    method MarkPending(f: string, record: FolderRecord) returns (marked: bool)
      modifies this`records
      ensures marked <==> ActiveRecord(old(records), f)
      ensures records == if marked then old(records)[f := Marked(old(records)[f], record)] else old(records)
    {
      marked := f in records && !records[f].deleted;
      if marked {
        records := records[f := Marked(records[f], record)];
      }
    }

    method Invalidate(tenant: string, ids: set<string>) returns (events: seq<Event>)
      modifies this`records, this`signals
      ensures Db() == Steps.Invalidate(old(Tables()), old(records), old(signals), tenant, ids)
      ensures events == InvalidationEvents(old(Tables()), old(records), tenant, Text.Sorted(ids))
    {
      signals := SignalsOutside(signals, ids);
      var order := Text.SortIds(ids);
      events := InvalidateInOrder(tenant, order);
    }

    method InvalidateInOrder(tenant: string, order: seq<string>) returns (events: seq<Event>)
      modifies this`records
      ensures records == InvalidateRecords(Tables(), old(records), tenant, Text.Elements(order))
      ensures events == InvalidationEvents(Tables(), old(records), tenant, order)
    {
      events := [];
      ghost var s, before := Tables(), records;
      ghost var recomputed := f => FreshRecord(s, before, tenant, f, Pending);
      for i := 0 to |order|
        invariant Tables() == s
        invariant records == MarkAll(before, Text.Elements(order[..i]), recomputed)
        invariant events == InvalidationEvents(s, before, tenant, order[..i])
      {
        var f := order[i];
        MarkingKeepsVersions(before, Text.Elements(order[..i]), recomputed, f);
        MarkOneMore(before, recomputed, Text.Elements(order[..i]), f);
        Text.ElementsUpTo(order, i);
        var record := FolderIndexRecord(tenant, f);
        var marked := MarkPending(f, record);
        if marked {
          events := events + [SignalsInvalidated(tenant, f, record.signalDigest, record.generationVersion)];
        }
      }
      assert order[..|order|] == order;
    }

    method Append(events: seq<Event>)
      modifies this`outbox
      ensures outbox == AppendAll(old(outbox), events)
    {
      for i := 0 to |events|
        invariant AppendAll(outbox, events[i..]) == AppendAll(old(outbox), events)
      {
        outbox := AppendEvent(outbox, events[i]);
      }
    }

    // Folders

    method UpsertFolderSource(f: string, row: FolderSource) returns (current: bool)
      requires !row.deleted
      modifies this`folders
      ensures current == Steps.AcceptsFolder(old(Tables()), f, row)
      ensures current <==> !(f in old(folders) && old(folders)[f].version != row.version
                             && row.updatedAt <= old(folders)[f].updatedAt)
      ensures folders == if current then old(folders)[f := row] else old(folders)
      ensures Tables() == if current then Steps.AfterFolderUpsert(old(Tables()), f, row) else old(Tables())
    {
      if f !in folders || folders[f].version == row.version || folders[f].updatedAt < row.updatedAt {
        folders := folders[f := row];
      }
      current := f in folders && folders[f].tenant == row.tenant && folders[f].version == row.version
                 && !folders[f].deleted;
    }

    method AffectedFolderIdsAfterSourceUpsert(previous: Option<FolderSource>, f: string, row: FolderSource)
      returns (ids: set<string>)
      ensures ids == AffectedByUpsert(previous, ActiveParents(Tables(), row.tenant), f, row)
    {
      var previousParent := if previous.Some? then previous.value.content.parent else None;
      if previous.Some? && previousParent == row.content.parent {
        return {f};
      }
      var g := ActiveParents(Tables(), row.tenant);
      var oldParentAncestors := AncestorFolderIds(g, if previousParent.Some? then {previousParent.value} else {});
      var currentAncestors := AncestorFolderIds(g, {f});
      ids := {f} + oldParentAncestors + currentAncestors;
    }

    method ReplaceFolderIndex(f: string, row: FolderSource) returns (invalidations: Option<seq<Event>>)
      requires !row.deleted
      modifies this`folders, this`records, this`signals
      ensures Db() == Steps.IndexFolder(old(Db()), f, row)
      ensures invalidations == if Steps.AcceptsFolder(old(Tables()), f, row)
                               then Some(FolderInvalidations(old(Db()), f, row)) else None
    {
      var previous := CurrentFolder(Tables(), row.tenant, f);
      var current := UpsertFolderSource(f, row);
      if !current {
        return None;
      }
      var ids := AffectedFolderIdsAfterSourceUpsert(previous, f, row);
      var events := UpsertAndInvalidate(row.tenant, f, ids);
      invalidations := Some(events);
    }

    method UpsertAndInvalidate(tenant: string, f: string, ids: set<string>) returns (events: seq<Event>)
      requires f in ids
      modifies this`records, this`signals
      ensures var upserted := old(records)[f := FreshRecord(old(Tables()), old(records), tenant, f, Pending)];
              && Db() == Steps.Invalidate(old(Tables()), upserted, old(signals), tenant, ids)
              && events == InvalidationEvents(old(Tables()), upserted, tenant, Text.Sorted(ids))
    {
      var record := FolderIndexRecord(tenant, f);
      records := records[f := record];
      assert {f} + ids == ids;
      events := Invalidate(tenant, {f} + ids);
    }

    /** Indexes a new, changed, moved or deleted folder. A stale command changes nothing at all. */
    method IndexFolder(f: string, row: FolderSource) returns (applied: bool)
      requires Valid() && Steps.Admissible(Db(), Steps.IndexFolderCommand(f, row))
      modifies this
      ensures Valid() && (old(DigestsCurrent(Db())) ==> DigestsCurrent(Db()))
      ensures old(Steps.RelatedActive(Db())) ==> Steps.RelatedActive(Db())
      ensures Db() == Steps.IndexFolder(old(Db()), f, row)
      ensures applied == Steps.AcceptsFolder(old(Tables()), f, row)
      ensures applied <==> !(f in old(folders) && old(folders)[f].version != row.version
                             && row.updatedAt <= old(folders)[f].updatedAt)
      ensures applied ==> folders == old(folders)[f := row]
      ensures !applied ==> Db() == old(Db()) && outbox == old(outbox)
      ensures outbox == AppendAll(old(outbox), EventsOf(old(Db()), Steps.IndexFolderCommand(f, row)))
    {
      Steps.ApplyKeeps(Db(), Steps.IndexFolderCommand(f, row));
      var invalidations := ReplaceFolderIndex(f, row);
      applied := invalidations.Some?;
      if applied {
        Append([FolderIndexed(row.tenant, f, row)] + invalidations.value);
      }
    }

    /** Removes the folder and invalidates its ancestors. */
    method MarkFolderDeleted(f: string) returns (invalidations: seq<Event>)
      requires Valid() && ActiveFolder(Tables(), f)
      modifies this
      ensures Db() == Steps.DeleteFolder(old(Db()), f) && outbox == old(outbox)
      ensures [FolderDeleted(old(folders)[f].tenant, f, old(folders)[f].version)] + invalidations
           == FolderDeletionEvents(old(Db()), f)
    {
      var row := folders[f];
      var ids := AncestorFolderIds(ActiveParents(Tables(), row.tenant), {f});
      signals := SignalsOutside(signals, {f});
      records := records[f := records[f].(deleted := true)];
      folders := folders[f := row.(deleted := true)];
      invalidations := Invalidate(row.tenant, ids - {f});
    }

    method DeleteFolder(f: string) returns (deleted: bool)
      requires Valid()
      modifies this
      ensures Valid() && (old(DigestsCurrent(Db())) ==> DigestsCurrent(Db()))
      ensures old(Steps.RelatedActive(Db())) ==> Steps.RelatedActive(Db())
      ensures Db() == Steps.DeleteFolder(old(Db()), f)
      ensures deleted <==> ActiveFolder(old(Tables()), f)
      ensures outbox == AppendAll(old(outbox), EventsOf(old(Db()), Steps.DeleteFolderCommand(f)))
    {
      Steps.ApplyKeeps(Db(), Steps.DeleteFolderCommand(f));
      deleted := f in folders && !folders[f].deleted;
      if deleted {
        var row := folders[f];
        var invalidations := MarkFolderDeleted(f);
        Append([FolderDeleted(row.tenant, f, row.version)] + invalidations);
      }
    }

    // Documents

    method UpsertDocumentSource(tenant: string, d: string, snapshot: Snapshot) returns (current: bool)
      requires d in documents ==> documents[d].tenant == tenant
      modifies this`documents
      ensures current == Steps.AcceptsDocument(old(Tables()), d, snapshot)
      ensures current <==> !(d in old(documents) && old(documents)[d].version != snapshot.version
                             && snapshot.updatedAt <= old(documents)[d].updatedAt)
      ensures Tables() == if current then Steps.AfterDocumentUpsert(old(Tables()), tenant, d, snapshot)
                          else old(Tables())
    {
      if d !in documents || documents[d].version == snapshot.version || documents[d].updatedAt < snapshot.updatedAt {
        documents := documents[d := Steps.DocumentRow(tenant, snapshot)];
      }
      current := d in documents
                 && documents[d] == Steps.DocumentRow(tenant, snapshot).(updatedAt := documents[d].updatedAt);
    }

    method ReplaceDocumentIndex(tenant: string, d: string, snapshot: Snapshot, folderIds: Option<seq<string>>)
      returns (invalidations: seq<Event>)
      modifies this`documentIndex, this`relations, this`records, this`signals
      ensures Db() == Steps.ProjectDocument(old(Db()), tenant, d, snapshot, folderIds)
      ensures invalidations == DocumentInvalidations(old(Db()), tenant, d, snapshot, folderIds)
    {
      documentIndex := documentIndex[d := DocumentIndex(snapshot.indexDigest, snapshot.signalDigest, false)];
      var previous := FolderIdsForDocument(Tables(), tenant, d);
      if folderIds.Some? {
        relations := Steps.RelationsWithout(relations, tenant, d)
                     + Steps.MembershipsOf(tenant, d, Steps.NormalizedFolderIds(folderIds.value));
      }
      var current := FolderIdsForDocument(Tables(), tenant, d);
      var ids := AncestorFolderIds(ActiveParents(Tables(), tenant), previous + current);
      invalidations := Invalidate(tenant, ids);
    }

    /** Indexes a document; one without text is deleted instead. A stale command changes nothing at all. */
    method IndexDocument(tenant: string, d: string, snapshot: Snapshot, folderIds: Option<seq<string>>)
      returns (applied: bool)
      requires Valid() && Steps.Admissible(Db(), Steps.IndexDocumentCommand(tenant, d, snapshot, folderIds))
      modifies this
      ensures Valid() && (old(DigestsCurrent(Db())) ==> DigestsCurrent(Db()))
      ensures old(Steps.RelatedActive(Db())) ==> Steps.RelatedActive(Db())
      ensures Db() == Steps.IndexDocument(old(Db()), tenant, d, snapshot, folderIds)
      ensures applied == Steps.AcceptsDocument(old(Tables()), d, snapshot)
      ensures applied <==> !(d in old(documents) && old(documents)[d].version != snapshot.version
                             && snapshot.updatedAt <= old(documents)[d].updatedAt)
      ensures !applied ==> Db() == old(Db()) && outbox == old(outbox)
      ensures applied && snapshot.chunks != [] && folderIds.None? ==> relations == old(relations)
      ensures outbox == AppendAll(old(outbox),
                                  EventsOf(old(Db()), Steps.IndexDocumentCommand(tenant, d, snapshot, folderIds)))
    {
      Steps.ApplyKeeps(Db(), Steps.IndexDocumentCommand(tenant, d, snapshot, folderIds));
      applied := UpsertDocumentSource(tenant, d, snapshot);
      if applied && snapshot.chunks == [] {
        var deleted := MarkDocumentDeleted(d);
        Append(deleted.value);
      } else if applied {
        var invalidations := ReplaceDocumentIndex(tenant, d, snapshot, folderIds);
        Append([DocumentIndexed(tenant, d, snapshot)] +
               (if folderIds.Some? then [RelationsIndexed(tenant, d, snapshot.version, folderIds.value)] else []) +
               invalidations);
      }
    }

    method MarkDocumentDeleted(d: string) returns (events: Option<seq<Event>>)
      modifies this`documents, this`documentIndex, this`relations, this`records, this`signals
      ensures Db() == Steps.DeleteDocument(old(Db()), d)
      ensures events == if d in old(documents) && !old(documents)[d].deleted then Some(DeletionEvents(old(Db()), d))
                        else None
    {
      if d !in documents || documents[d].deleted {
        return None;
      }
      var row := documents[d];
      var direct := FolderIdsForDocument(Tables(), row.tenant, d);
      var ids := AncestorFolderIds(ActiveParents(Tables(), row.tenant), direct + Steps.FoldersReferring(signals, d));
      if d in documentIndex {
        documentIndex := documentIndex[d := documentIndex[d].(deleted := true)];
      }
      relations := Steps.RelationsWithout(relations, row.tenant, d);
      documents := documents[d := row.(deleted := true)];
      var affected := Text.SortIds(ids);
      var invalidations := Invalidate(row.tenant, ids);
      events := Some([DocumentDeleted(row.tenant, d, row.version, affected)] + invalidations);
    }

    method DeleteDocument(d: string) returns (deleted: bool)
      requires Valid()
      modifies this
      ensures Valid() && (old(DigestsCurrent(Db())) ==> DigestsCurrent(Db()))
      ensures old(Steps.RelatedActive(Db())) ==> Steps.RelatedActive(Db())
      ensures Db() == Steps.DeleteDocument(old(Db()), d)
      ensures deleted <==> d in old(documents) && !old(documents)[d].deleted
      ensures deleted ==> forall row | row in signals :: row.relatedDocumentId != Some(d)
      ensures outbox == AppendAll(old(outbox), EventsOf(old(Db()), Steps.DeleteDocumentCommand(d)))
    {
      ghost var before := Db();
      Steps.ApplyKeeps(before, Steps.DeleteDocumentCommand(d));
      var events := MarkDocumentDeleted(d);
      deleted := events.Some?;
      if deleted {
        forall row | row in signals ensures row.relatedDocumentId != Some(d) {
          Steps.NoSignalRefersToDeleted(before, d, row);
        }
        Append(events.value);
      }
    }

    // Folder signals

    /** The outcome tells whether the signals were stored; an error is a violated constraint of the tables. */
    method ReplaceFolderSignals(tenant: string, f: string, rows: seq<FolderSignalRow>, expected: Digest,
                                version: string) returns (outcome: Result<bool>)
      requires Valid()
      modifies this`records, this`signals
      ensures Db() == Steps.ReplaceFolderSignals(old(Db()), tenant, f, rows, expected, version)
      ensures outcome == Ok(true) <==> Steps.AcceptsSignals(old(Db()), tenant, f, rows, expected, version)
      ensures outcome == Ok(false) <==> !Steps.ExpectsSignals(old(Db()), tenant, f, expected)
      ensures Valid() <==>
        (outcome == Ok(true) ==> forall row | row in rows :: Steps.FitsFolder(old(Db()), f, expected, row))
      ensures old(Steps.RelatedActive(Db())) ==>
        (Steps.RelatedActive(Db()) <==>
         (outcome == Ok(true) ==> forall row | row in rows :: Steps.AboutActive(Tables(), row)))
      ensures old(DigestsCurrent(Db())) ==>
        (DigestsCurrent(Db()) <==>
         (outcome == Ok(true) ==> EffectiveVersion(version) == old(GenerationVersion(records, f))))
    {
      Steps.ApplyKeeps(Db(), Steps.ReplaceFolderSignalsCommand(tenant, f, rows, expected, version));
      if CurrentFolder(Tables(), tenant, f).None? {
        return Ok(false);
      }
      if f !in records || records[f].deleted || records[f].signalDigest != expected {
        return Ok(false);
      }
      if !Steps.Storable(Db(), f, rows, version) {
        return Err("integrity error");
      }
      records := records[f := records[f].(status := Ready, generationVersion := version)];
      signals := SignalsOutside(signals, {f});
      signals := signals + set row | row in rows;
      outcome := Ok(true);
    }
  }
}
