/**
 What the log says last about the signals and the memberships of folders. The append does nothing when
 the log has the same event already, so a transaction that brings a folder back to an earlier digest, or
 a document back to earlier folders under one version, says nothing.
 */
module IndexingAnnouncements {
  import opened Common
  import opened FolderDigests
  import opened FolderFrames
  import opened FolderGraph
  import opened IndexingSession
  import opened Outbox
  import Limits = IndexingLimits
  import Steps = IndexingSteps
  import Text

  /** The event that announces the digest a folder's record holds. */
  function Announcement(db: Database, f: string): Event
    requires f in db.sources.folders && f in db.records
  {
    SignalsInvalidated(db.sources.folders[f].tenant, f, db.records[f].signalDigest, GenerationVersion(db.records, f))
  }

  /** The last invalidation of `f` in the log is the one of its current digest. */
  ghost predicate Said(db: Database, log: seq<Event>, f: string)
    requires ActiveFolder(db.sources, f)
  {
    f in db.records && LastAbout(log, SubjectOf(Announcement(db, f))) == Some(Announcement(db, f))
  }

  ghost predicate Announced(db: Database, log: seq<Event>) {
    forall f | ActiveFolder(db.sources, f) :: Said(db, log, f)
  }

  ghost function InvalidationOf(s: Sources, records: Records, tenant: string, f: string): Event {
    SignalsInvalidated(tenant, f, FreshRecord(s, records, tenant, f, Pending).signalDigest,
                       GenerationVersion(records, f))
  }

  predicate DistinctSubjects(events: seq<Event>) {
    forall i, j | 0 <= i < j < |events| :: SubjectOf(events[i]) != SubjectOf(events[j])
  }

  lemma {:induction false} OneMoreSubject(before: seq<Event>, e: Event)
    requires DistinctSubjects(before) && forall x | x in before :: SubjectOf(x) != SubjectOf(e)
    ensures DistinctSubjects(before + [e])
  {
  }

  ghost predicate Lists(events: seq<Event>, s: Sources, records: Records, tenant: string, ids: seq<string>) {
    && (forall f | f in ids && ActiveRecord(records, f) :: InvalidationOf(s, records, tenant, f) in events)
    && (forall e | e in events ::
          e.SignalsInvalidated? && e.folderId in ids && ActiveRecord(records, e.folderId)
          && e == InvalidationOf(s, records, tenant, e.folderId))
    && DistinctSubjects(events)
  }

  lemma {:induction false} ListsMore(before: seq<Event>, s: Sources, records: Records, tenant: string, ids: seq<string>)
    requires ids != [] && Lists(before, s, records, tenant, ids[..|ids| - 1])
    requires forall e | e in before :: e.folderId in ids && e.folderId != ids[|ids| - 1]
    requires forall f | f in ids && f != ids[|ids| - 1] :: f in ids[..|ids| - 1]
    ensures var f := ids[|ids| - 1];
            Lists(before + if ActiveRecord(records, f) then [InvalidationOf(s, records, tenant, f)] else [],
                  s, records, tenant, ids)
  {
    var f := ids[|ids| - 1];
    if ActiveRecord(records, f) {
      var e := InvalidationOf(s, records, tenant, f);
      assert (before + [e])[|before|] == e;
      forall x | x in before + [e] ensures x in before || x == e {
      }
      OneMoreSubject(before, e);
    }
  }

  lemma {:induction false} InvalidationsListed(s: Sources, records: Records, tenant: string, ids: seq<string>)
    requires forall i, j | 0 <= i < j < |ids| :: ids[i] != ids[j]
    ensures Lists(InvalidationEvents(s, records, tenant, ids), s, records, tenant, ids)
  {
    if ids != [] {
      var n := |ids| - 1;
      InvalidationsListed(s, records, tenant, ids[..n]);
      var before := InvalidationEvents(s, records, tenant, ids[..n]);
      forall e | e in before ensures e.folderId in ids && e.folderId != ids[n] {
        var k :| 0 <= k < n && ids[..n][k] == e.folderId;
        assert ids[k] == e.folderId;
      }
      forall f | f in ids && f != ids[n] ensures f in ids[..n] {
        var k :| 0 <= k < |ids| && ids[k] == f;
        assert ids[..n][k] == f;
      }
      ListsMore(before, s, records, tenant, ids);
    }
  }

  predicate NoInvalidations(events: seq<Event>) {
    forall e | e in events :: !e.SignalsInvalidated?
  }

  /** No invalidation among the events is dropped although the log has announced another digest since. */
  predicate NoneLost(log: seq<Event>, events: seq<Event>) {
    forall e | e in events && e.SignalsInvalidated? :: !Lost(log, e)
  }

  /** One listed event, appended with the others, after events of other kinds. */
  lemma {:induction false} ListedSpeaks(log: seq<Event>, prefix: seq<Event>, events: seq<Event>, s: Sources,
                                        records: Records, tenant: string, ids: seq<string>, e: Event)
    requires NoInvalidations(prefix) && Lists(events, s, records, tenant, ids) && e in events
    ensures LastAbout(AppendAll(log, prefix + events), SubjectOf(e)) == Some(e) <==> !Lost(log, e)
  {
    AppendAllSplit(log, prefix, events);
    OthersSpeakNot(log, prefix, SubjectOf(e));
    var i :| 0 <= i < |events| && events[i] == e;
    AppendAllSpeaksLast(AppendAll(log, prefix), events, i);
  }

  lemma {:induction false} UnlistedSpeaksNot(log: seq<Event>, prefix: seq<Event>, events: seq<Event>, s: Sources,
                                             records: Records, tenant: string, ids: seq<string>, subject: Subject)
    requires NoInvalidations(prefix) && Lists(events, s, records, tenant, ids)
    requires subject.FolderSignals? && subject.id !in ids
    ensures LastAbout(AppendAll(log, prefix + events), subject) == LastAbout(log, subject)
  {
    OthersSpeakNot(log, prefix + events, subject);
  }

  /** The active folders outside `ids` are in `db'` as they were in `db`. */
  ghost predicate KeptOutside(db: Database, db': Database, ids: set<string>) {
    forall f | f !in ids && ActiveFolder(db'.sources, f) ::
      && ActiveFolder(db.sources, f) && db.sources.folders[f].tenant == db'.sources.folders[f].tenant
      && f in db.records && f in db'.records && db'.records[f] == db.records[f]
  }

  lemma {:induction false} OutsideIsKept(db: Database, db': Database, upserted: Records, tenant: string,
                                         ids: set<string>)
    requires Consistent(db) && Confined(db, db'.sources, upserted, tenant, ids)
    requires db'.records == InvalidateRecords(db'.sources, upserted, tenant, ids)
    ensures KeptOutside(db, db', ids)
  {
    forall f | f !in ids && ActiveFolder(db'.sources, f)
      ensures ActiveFolder(db.sources, f) && db.sources.folders[f].tenant == db'.sources.folders[f].tenant
      ensures f in db.records && f in db'.records && db'.records[f] == db.records[f]
    {
      assert ActiveFolder(db.sources, f) <==> ActiveRecord(db.records, f);
    }
  }

  /** A folder that is not invalidated is announced as it was. */
  lemma {:induction false} UnlistedSaid(db: Database, db': Database, ids: set<string>, log: seq<Event>,
                                        log': seq<Event>, f: string)
    requires Announced(db, log) && KeptOutside(db, db', ids) && f !in ids && ActiveFolder(db'.sources, f)
    requires var subject := FolderSignals(db'.sources.folders[f].tenant, f);
             LastAbout(log', subject) == LastAbout(log, subject)
    ensures Said(db', log', f)
  {
    assert Said(db, log, f);
    assert Announcement(db', f) == Announcement(db, f);
  }

  /** An invalidated folder has the digest its invalidation announces. */
  lemma {:induction false} ListedAnnouncement(db: Database, upserted: Records, tenant: string, ids: set<string>,
                                              f: string)
    requires db.records == InvalidateRecords(db.sources, upserted, tenant, ids)
    requires f in ids && ActiveRecord(upserted, f) && f in db.sources.folders && db.sources.folders[f].tenant == tenant
    ensures f in db.records && Announcement(db, f) == InvalidationOf(db.sources, upserted, tenant, f)
  {
    MarkingKeepsVersions(upserted, ids, x => FreshRecord(db.sources, upserted, tenant, x, Pending), f);
  }

  /** The invalidations announce digests that folders hold now, and every folder that has a new one is announced. */
  ghost predicate Informs(db: Database, db': Database, events: seq<Event>) {
    && (forall e | e in events && e.SignalsInvalidated? ::
          ActiveFolder(db'.sources, e.folderId) && e.folderId in db'.records && e == Announcement(db', e.folderId))
    && (forall f | ActiveFolder(db'.sources, f) ::
          && f in db'.records
          && (Announcement(db', f) in events
              || (ActiveFolder(db.sources, f) && f in db.records
                  && db'.records[f].signalDigest == db.records[f].signalDigest)))
  }

  /** What a transaction from `db` to `db'` with these events does to a log that announced every digest. */
  ghost predicate Tells(db: Database, db': Database, log: seq<Event>, events: seq<Event>) {
    && Informs(db, db', events)
    && (Announced(db', AppendAll(log, events)) <==> NoneLost(log, events))
  }

  lemma {:induction false} ConfinedInforms(db: Database, db': Database, upserted: Records, tenant: string,
                                           ids: set<string>, order: seq<string>, prefix: seq<Event>, events: seq<Event>)
    requires KeptOutside(db, db', ids) && Lists(events, db'.sources, upserted, tenant, order) && NoInvalidations(prefix)
    requires db'.records == InvalidateRecords(db'.sources, upserted, tenant, ids)
    requires forall f | f in order :: f in ids
    requires forall f | f in ids && ActiveRecord(upserted, f) ::
               f in order && ActiveFolder(db'.sources, f) && db'.sources.folders[f].tenant == tenant
    requires forall f | f in ids && ActiveFolder(db'.sources, f) :: ActiveRecord(upserted, f)
    ensures Informs(db, db', prefix + events)
  {
    forall f | f in ids && ActiveRecord(upserted, f)
      ensures f in db'.records && Announcement(db', f) == InvalidationOf(db'.sources, upserted, tenant, f)
    {
      ListedAnnouncement(db', upserted, tenant, ids, f);
    }
    forall f | ActiveFolder(db'.sources, f) && f in ids ensures Announcement(db', f) in prefix + events {
      assert InvalidationOf(db'.sources, upserted, tenant, f) in events;
    }
  }

  /**
   A transaction that is confined to `ids`, and invalidates those of them that stay active: the log
   announces every digest afterwards exactly when none of the invalidations is lost.
   */
  lemma {:induction false} ConfinedAnnounces(db: Database, db': Database, upserted: Records, tenant: string,
                                             ids: set<string>, listed: set<string>, prefix: seq<Event>, log: seq<Event>)
    requires Consistent(db) && Confined(db, db'.sources, upserted, tenant, ids) && Announced(db, log)
    requires db'.records == InvalidateRecords(db'.sources, upserted, tenant, ids)
    requires listed <= ids && forall f | f in ids && f !in listed :: !ActiveRecord(upserted, f)
    requires NoInvalidations(prefix)
    ensures var events := InvalidationEvents(db'.sources, upserted, tenant, Text.Sorted(listed));
            Tells(db, db', log, prefix + events)
  {
    var order := Text.Sorted(listed);
    var events := InvalidationEvents(db'.sources, upserted, tenant, order);
    var log' := AppendAll(log, prefix + events);
    Text.SortedIsDistinct(listed);
    InvalidationsListed(db'.sources, upserted, tenant, order);
    OutsideIsKept(db, db', upserted, tenant, ids);
    assert forall f :: f in order <==> f in listed by {
      assert forall f :: f in order <==> f in Text.Elements(order);
    }
    ConfinedInforms(db, db', upserted, tenant, ids, order, prefix, events);
    forall f | ActiveFolder(db'.sources, f) && f !in ids ensures Said(db', log', f) {
      UnlistedSpeaksNot(log, prefix, events, db'.sources, upserted, tenant, order,
                        FolderSignals(db'.sources.folders[f].tenant, f));
      UnlistedSaid(db, db', ids, log, log', f);
    }
    forall f | ActiveFolder(db'.sources, f) && f in ids
      ensures f in listed && InvalidationOf(db'.sources, upserted, tenant, f) in events
      ensures Said(db', log', f) <==> !Lost(log, InvalidationOf(db'.sources, upserted, tenant, f))
    {
      ListedAnnouncement(db', upserted, tenant, ids, f);
      ListedSpeaks(log, prefix, events, db'.sources, upserted, tenant, order,
                   InvalidationOf(db'.sources, upserted, tenant, f));
    }
    forall e | e in events
      ensures e.folderId in ids && ActiveFolder(db'.sources, e.folderId)
      ensures e == InvalidationOf(db'.sources, upserted, tenant, e.folderId)
    {
    }
  }

  // The transactions

  lemma {:induction false} FolderIndexAnnounces(db: Database, f: string, row: FolderSource, log: seq<Event>)
    requires Consistent(db) && Announced(db, log) && Steps.Admissible(db, Steps.IndexFolderCommand(f, row))
    requires Steps.AcceptsFolder(db.sources, f, row)
    ensures var events := [FolderIndexed(row.tenant, f, row)] + FolderInvalidations(db, f, row);
            Tells(db, Steps.IndexFolder(db, f, row), log, events)
  {
    var s := Steps.AfterFolderUpsert(db.sources, f, row);
    var ids := AffectedByUpsert(CurrentFolder(db.sources, row.tenant, f), ActiveParents(s, row.tenant), f, row);
    var record := FreshRecord(s, db.records, row.tenant, f, Pending);
    Steps.FolderUpsertConfined(db, f, row, s, ids, record);
    ConfinedAnnounces(db, Steps.IndexFolder(db, f, row), db.records[f := record], row.tenant, ids, ids,
                      [FolderIndexed(row.tenant, f, row)], log);
  }

  lemma {:induction false} FolderDeletionConfined(db: Database, f: string, ids: set<string>)
    requires Consistent(db) && ActiveFolder(db.sources, f) && f in db.records
    requires ids == AncestorFolderIds(ActiveParents(db.sources, db.sources.folders[f].tenant), {f})
    ensures var db', tenant := Steps.DeleteFolder(db, f), db.sources.folders[f].tenant;
            var upserted := db.records[f := db.records[f].(deleted := true)];
            && f in ids && Confined(db, db'.sources, upserted, tenant, ids)
            && db'.records == InvalidateRecords(db'.sources, upserted, tenant, ids)
  {
    var row, record := db.sources.folders[f], db.records[f].(deleted := true);
    var s := Steps.AfterFolderUpsert(db.sources, f, row.(deleted := true));
    Steps.FolderDeleteConfined(db, f, s, ids, record);
    Steps.DeletedNeedsNoRecompute(s, db.records[f := record], db.signals, row.tenant, ids, f);
  }

  lemma {:induction false} FolderDeletionAnnounces(db: Database, f: string, log: seq<Event>)
    requires Consistent(db) && Announced(db, log) && ActiveFolder(db.sources, f) && f in db.records
    ensures Tells(db, Steps.DeleteFolder(db, f), log, FolderDeletionEvents(db, f))
  {
    var row, db' := db.sources.folders[f], Steps.DeleteFolder(db, f);
    var upserted := db.records[f := db.records[f].(deleted := true)];
    var ids := AncestorFolderIds(ActiveParents(db.sources, row.tenant), {f});
    var prefix := [FolderDeleted(row.tenant, f, row.version)];
    assert FolderDeletionEvents(db, f)
        == prefix + InvalidationEvents(db'.sources, upserted, row.tenant, Text.Sorted(ids - {f}));
    FolderDeletionConfined(db, f, ids);
    ConfinedAnnounces(db, db', upserted, row.tenant, ids, ids - {f}, prefix, log);
  }

  lemma {:induction false} DocumentChangeAnnounces(db: Database, db': Database, tenant: string, d: string,
                                                   seeds: set<string>, prefix: seq<Event>, log: seq<Event>)
    requires Consistent(db) && Announced(db, log) && DocumentMayDiffer(db.sources, db'.sources, tenant, d)
    requires d in db'.sources.documents && NoInvalidations(prefix)
    requires FolderIdsForDocument(db.sources, tenant, d) + FolderIdsForDocument(db'.sources, tenant, d) <= seeds
    requires db'.records == InvalidateRecords(db'.sources, db.records, tenant,
                                              AncestorFolderIds(ActiveParents(db.sources, tenant), seeds))
    ensures var ids := AncestorFolderIds(ActiveParents(db.sources, tenant), seeds);
            var events := prefix + InvalidationEvents(db'.sources, db.records, tenant, Text.Sorted(ids));
            Tells(db, db', log, events)
  {
    var ids := AncestorFolderIds(ActiveParents(db.sources, tenant), seeds);
    Steps.DocumentChangeConfined(db, db'.sources, tenant, d, seeds);
    ConfinedAnnounces(db, db', db.records, tenant, ids, ids, prefix, log);
  }

  lemma {:induction false} DocumentIndexAnnounces(db: Database, tenant: string, d: string, snapshot: Snapshot,
                                                  folderIds: Option<seq<string>>, log: seq<Event>)
    requires Consistent(db) && Announced(db, log) && Steps.AcceptsDocument(db.sources, d, snapshot)
    requires snapshot.chunks != [] && (d in db.sources.documents ==> db.sources.documents[d].tenant == tenant)
    ensures var events := IndexingEvents(db, tenant, d, snapshot, folderIds);
            Tells(db, Steps.IndexDocument(db, tenant, d, snapshot, folderIds), log, events)
  {
    var db' := Steps.IndexDocument(db, tenant, d, snapshot, folderIds);
    var upserted := Steps.AfterDocumentUpsert(db.sources, tenant, d, snapshot);
    Steps.OnlyDocumentDiffers(db.sources, tenant, d, snapshot, folderIds);
    assert ActiveParents(upserted, tenant) == ActiveParents(db.sources, tenant);
    DocumentChangeAnnounces(
      db, db', tenant, d, FolderIdsForDocument(db.sources, tenant, d) + FolderIdsForDocument(db'.sources, tenant, d),
      [DocumentIndexed(tenant, d, snapshot)] +
      if folderIds.Some? then [RelationsIndexed(tenant, d, snapshot.version, folderIds.value)] else [], log);
  }

  /** `upserted` is `s` with `d` written as an active document. */
  predicate WithDocument(s: Sources, upserted: Sources, d: string) {
    && d in upserted.documents && !upserted.documents[d].deleted
    && upserted == s.(documents := s.documents[d := upserted.documents[d]])
    && (d in s.documents ==> s.documents[d].tenant == upserted.documents[d].tenant)
  }

  lemma {:induction false} OnlyDeletedDiffers(s: Sources, upserted: Sources, d: string)
    requires WithDocument(s, upserted, d)
    ensures var tenant, s' := upserted.documents[d].tenant, Steps.AfterDocumentDelete(upserted, d);
            && DocumentMayDiffer(s, s', tenant, d) && FolderIdsForDocument(s', tenant, d) == {}
            && ActiveParents(upserted, tenant) == ActiveParents(s, tenant)
            && FolderIdsForDocument(upserted, tenant, d) == FolderIdsForDocument(s, tenant, d)
  {
  }

  /** Also for a document without text, which is written and deleted at once. */
  lemma {:induction false} DocumentDeletionAnnounces(db: Database, upserted: Database, d: string, log: seq<Event>)
    requires Consistent(db) && Announced(db, log) && WithDocument(db.sources, upserted.sources, d)
    requires upserted == db.(sources := upserted.sources)
    ensures Tells(db, Steps.DeleteDocument(upserted, d), log, DeletionEvents(upserted, d))
  {
    var row := upserted.sources.documents[d];
    OnlyDeletedDiffers(db.sources, upserted.sources, d);
    var ids := Text.Sorted(Steps.AffectedByDelete(upserted.sources, db.signals, row.tenant, d));
    DocumentChangeAnnounces(
      db, Steps.DeleteDocument(upserted, d), row.tenant, d,
      FolderIdsForDocument(upserted.sources, row.tenant, d) + Steps.FoldersReferring(db.signals, d),
      [DocumentDeleted(row.tenant, d, row.version, ids)], log);
  }

  lemma {:induction false} SignalsAnnounce(db: Database, tenant: string, f: string, rows: seq<FolderSignalRow>,
                                           expected: Digest, version: string, log: seq<Event>)
    requires Consistent(db) && Announced(db, log)
    ensures Informs(db, Steps.ReplaceFolderSignals(db, tenant, f, rows, expected, version), [])
    ensures Announced(Steps.ReplaceFolderSignals(db, tenant, f, rows, expected, version), log)
       <==> Steps.KeepsGenerationVersion(db, Steps.ReplaceFolderSignalsCommand(tenant, f, rows, expected, version))
  {
    var db' := Steps.ReplaceFolderSignals(db, tenant, f, rows, expected, version);
    if Steps.AcceptsSignals(db, tenant, f, rows, expected, version) {
      assert Said(db, log, f);
      forall x | ActiveFolder(db'.sources, x) && x != f ensures Said(db', log, x) {
        assert Said(db, log, x);
        assert Announcement(db', x) == Announcement(db, x);
      }
      assert Said(db', log, f) <==> EffectiveVersion(version) == GenerationVersion(db.records, f);
    }
  }

  /**
   After a transaction, the last invalidation of every active folder in the log is still the one of its
   digest, exactly when none of the transaction's own is lost, and no generation version was changed. Its
   own announce current digests, and miss no folder that has a new one.
   */
  lemma {:induction false} TransactionAnnounces(db: Database, c: Steps.Command, log: seq<Event>)
    requires Consistent(db) && Announced(db, log) && Steps.Admissible(db, c)
    ensures Informs(db, Steps.Apply(db, c), EventsOf(db, c))
    ensures Announced(Steps.Apply(db, c), AppendAll(log, EventsOf(db, c)))
       <==> Steps.KeepsGenerationVersion(db, c) && NoneLost(log, EventsOf(db, c))
  {
    match c
    case IndexFolderCommand(f, row) =>
      if Steps.AcceptsFolder(db.sources, f, row) {
        FolderIndexAnnounces(db, f, row, log);
      }
    case DeleteFolderCommand(f) =>
      if ActiveFolder(db.sources, f) && f in db.records {
        FolderDeletionAnnounces(db, f, log);
      }
    case IndexDocumentCommand(tenant, d, snapshot, folderIds) =>
      if Steps.AcceptsDocument(db.sources, d, snapshot) {
        if snapshot.chunks == [] {
          var upserted := db.(sources := Steps.AfterDocumentUpsert(db.sources, tenant, d, snapshot));
          DocumentDeletionAnnounces(db, upserted, d, log);
        } else {
          DocumentIndexAnnounces(db, tenant, d, snapshot, folderIds, log);
        }
      }
    case DeleteDocumentCommand(d) =>
      if d in db.sources.documents && !db.sources.documents[d].deleted {
        assert db.sources.documents[d := db.sources.documents[d]] == db.sources.documents;
        DocumentDeletionAnnounces(db, db, d, log);
      }
    case ReplaceFolderSignalsCommand(tenant, f, rows, expected, version) =>
      SignalsAnnounce(db, tenant, f, rows, expected, version, log);
  }

  // Runs

  /** The log after a run of transactions. */
  ghost function LogOf(db: Database, log: seq<Event>, commands: seq<Steps.Command>): seq<Event>
    decreases |commands|
  {
    if commands == [] then log
    else LogOf(Steps.Apply(db, commands[0]), AppendAll(log, EventsOf(db, commands[0])), commands[1..])
  }

  ghost predicate NeverLost(db: Database, log: seq<Event>, commands: seq<Steps.Command>)
    decreases |commands|
  {
    commands != [] ==>
      var events := EventsOf(db, commands[0]);
      NoneLost(log, events) && NeverLost(Steps.Apply(db, commands[0]), AppendAll(log, events), commands[1..])
  }

  lemma {:induction false} RunAnnounces(db: Database, log: seq<Event>, commands: seq<Steps.Command>)
    requires Consistent(db) && Announced(db, log) && NeverLost(db, log, commands)
    requires Steps.Throughout(db, commands, Steps.Sound)
    requires Steps.Throughout(db, commands, Steps.KeepsGenerationVersion)
    ensures Announced(Steps.Run(db, commands), LogOf(db, log, commands))
    decreases |commands|
  {
    if commands != [] {
      TransactionAnnounces(db, commands[0], log);
      Steps.ApplyKeeps(db, commands[0]);
      RunAnnounces(Steps.Apply(db, commands[0]), AppendAll(log, EventsOf(db, commands[0])), commands[1..]);
    }
  }

  // Memberships

  lemma {:induction false} OneFolderList(db: Database, tenant: string, d: string, snapshot: Snapshot, ids: seq<string>)
    requires Steps.AcceptsDocument(db.sources, d, snapshot) && snapshot.chunks != []
    ensures var events := EventsOf(db, Steps.IndexDocumentCommand(tenant, d, snapshot, Some(ids)));
            var e := RelationsIndexed(tenant, d, snapshot.version, ids);
            && |events| > 1 && events[1] == e
            && (forall j | 0 <= j < |events| && j != 1 :: SubjectOf(events[j]) != SubjectOf(e))
            && forall x | x in events && SubjectOf(x) == SubjectOf(e) :: x == e
  {
    var upserted := db.(sources := Steps.AfterDocumentUpsert(db.sources, tenant, d, snapshot));
    DocumentInvalidationsAreOthers(upserted, tenant, d, snapshot, Some(ids));
    SecondOfItsKind(DocumentIndexed(tenant, d, snapshot), RelationsIndexed(tenant, d, snapshot.version, ids),
                    DocumentInvalidations(upserted, tenant, d, snapshot, Some(ids)));
  }

  lemma {:induction false} SecondOfItsKind(first: Event, second: Event, rest: seq<Event>)
    requires first.DocumentIndexed? && second.RelationsIndexed? && forall e | e in rest :: e.SignalsInvalidated?
    ensures var events := [first] + [second] + rest;
            && events[1] == second
            && (forall j | 0 <= j < |events| && j != 1 :: SubjectOf(events[j]) != SubjectOf(second))
            && forall x | x in events && SubjectOf(x) == SubjectOf(second) :: x == second
  {
    var events := [first] + [second] + rest;
    forall j | 0 <= j < |events| && j != 1 ensures SubjectOf(events[j]) != SubjectOf(second) {
      if j > 1 {
        assert events[j] in rest;
      }
    }
  }

  /**
   After an accepted index command with a folder list, the last such list in the log is that of the command
   exactly when its event is not lost; otherwise the log keeps another list of an earlier command.
   */
  lemma {:induction false} FoldersSpoken(db: Database, tenant: string, d: string, snapshot: Snapshot, ids: seq<string>,
                                         log: seq<Event>)
    requires Steps.AcceptsDocument(db.sources, d, snapshot) && snapshot.chunks != []
    ensures var e := RelationsIndexed(tenant, d, snapshot.version, ids);
            var c := Steps.IndexDocumentCommand(tenant, d, snapshot, Some(ids));
            LastAbout(AppendAll(log, EventsOf(db, c)), DocumentFolders(tenant, d)) == LastUnlessLost(log, e)
  {
    OneFolderList(db, tenant, d, snapshot, ids);
    AppendAllSpeaksLast(log, EventsOf(db, Steps.IndexDocumentCommand(tenant, d, snapshot, Some(ids))), 1);
  }

  /** The same version is accepted again, and the memberships are those of the list. */
  lemma {:induction false} FolderListStored(db: Database, tenant: string, d: string, snapshot: Snapshot,
                                            ids: seq<string>)
    requires Steps.AcceptsDocument(db.sources, d, snapshot) && snapshot.chunks != []
    ensures var s := Steps.IndexDocument(db, tenant, d, snapshot, Some(ids)).sources;
            && Steps.AcceptsDocument(s, d, snapshot)
            && FolderIdsForDocument(s, tenant, d) == Steps.NormalizedFolderIds(ids)
  {
    var s := Steps.IndexDocument(db, tenant, d, snapshot, Some(ids)).sources;
    assert s.relations == Steps.RelationsWithout(db.sources.relations, tenant, d)
                          + Steps.MembershipsOf(tenant, d, Steps.NormalizedFolderIds(ids));
    forall f | f in Steps.NormalizedFolderIds(ids) ensures f in FolderIdsForDocument(s, tenant, d) {
      assert Membership(tenant, d, f) in s.relations;
    }
  }

  /** What one command with a folder list does to the log, told for that list and for another. */
  lemma {:induction false} FolderListInLog(db: Database, tenant: string, d: string, snapshot: Snapshot,
                                           ids: seq<string>, other: seq<string>, log: seq<Event>)
    requires Steps.AcceptsDocument(db.sources, d, snapshot) && snapshot.chunks != [] && ids != other
    ensures var c := Steps.IndexDocumentCommand(tenant, d, snapshot, Some(ids));
            var log' := AppendAll(log, EventsOf(db, c));
            var e, e' := RelationsIndexed(tenant, d, snapshot.version, ids),
                         RelationsIndexed(tenant, d, snapshot.version, other);
            && e in log' && (e' in log' <==> e' in log)
            && LastAbout(log', DocumentFolders(tenant, d)) == LastUnlessLost(log, e)
  {
    var events := EventsOf(db, Steps.IndexDocumentCommand(tenant, d, snapshot, Some(ids)));
    FoldersSpoken(db, tenant, d, snapshot, ids, log);
    OneFolderList(db, tenant, d, snapshot, ids);
    AppendAllContents(log, events, RelationsIndexed(tenant, d, snapshot.version, ids));
    AppendAllContents(log, events, RelationsIndexed(tenant, d, snapshot.version, other));
  }

  /**
   A document that moves from one folder list to another and back under one version: the third command
   is accepted, and the tables hold the first list again, but the log ends with the second.
   */
  lemma {:induction false} EarlierFoldersAreLost(db: Database, tenant: string, d: string, snapshot: Snapshot,
                                                 first: seq<string>, second: seq<string>, log: seq<Event>)
    requires Steps.AcceptsDocument(db.sources, d, snapshot) && snapshot.chunks != [] && first != second
    requires RelationsIndexed(tenant, d, snapshot.version, second) !in log
    ensures var there := Steps.IndexDocumentCommand(tenant, d, snapshot, Some(first));
            var away := Steps.IndexDocumentCommand(tenant, d, snapshot, Some(second));
            && LastAbout(LogOf(db, log, [there, away, there]), DocumentFolders(tenant, d))
               == Some(RelationsIndexed(tenant, d, snapshot.version, second))
            && FolderIdsForDocument(Steps.Run(db, [there, away, there]).sources, tenant, d)
               == Steps.NormalizedFolderIds(first)
  {
    var there := Steps.IndexDocumentCommand(tenant, d, snapshot, Some(first));
    var away := Steps.IndexDocumentCommand(tenant, d, snapshot, Some(second));
    var db1, log1 := Steps.Apply(db, there), AppendAll(log, EventsOf(db, there));
    var db2, log2 := Steps.Apply(db1, away), AppendAll(log1, EventsOf(db1, away));
    FolderListStored(db, tenant, d, snapshot, first);
    FolderListStored(db1, tenant, d, snapshot, second);
    FolderListStored(db2, tenant, d, snapshot, first);
    FolderListInLog(db, tenant, d, snapshot, first, second, log);
    FolderListInLog(db1, tenant, d, snapshot, second, first, log1);
    FolderListInLog(db2, tenant, d, snapshot, first, second, log2);
    ThreeCommands(db, log, there, away, there);
  }

  lemma {:induction false} OneCommand(db: Database, log: seq<Event>, c: Steps.Command, rest: seq<Steps.Command>)
    ensures LogOf(db, log, [c] + rest) == LogOf(Steps.Apply(db, c), AppendAll(log, EventsOf(db, c)), rest)
    ensures Steps.Run(db, [c] + rest) == Steps.Run(Steps.Apply(db, c), rest)
  {
    assert ([c] + rest)[1..] == rest;
  }

  lemma {:induction false} TwoCommands(db: Database, log: seq<Event>, c1: Steps.Command, c2: Steps.Command)
    ensures var db1, log1 := Steps.Apply(db, c1), AppendAll(log, EventsOf(db, c1));
            && LogOf(db, log, [c1, c2]) == AppendAll(log1, EventsOf(db1, c2))
            && Steps.Run(db, [c1, c2]) == Steps.Apply(db1, c2)
  {
    assert [c1] + [c2] == [c1, c2] && [c2] + [] == [c2];
    OneCommand(db, log, c1, [c2]);
    OneCommand(Steps.Apply(db, c1), AppendAll(log, EventsOf(db, c1)), c2, []);
  }

  lemma {:induction false} ThreeCommands(db: Database, log: seq<Event>, c1: Steps.Command, c2: Steps.Command,
                                         c3: Steps.Command)
    ensures var db1, log1 := Steps.Apply(db, c1), AppendAll(log, EventsOf(db, c1));
            var db2, log2 := Steps.Apply(db1, c2), AppendAll(log1, EventsOf(db1, c2));
            && LogOf(db, log, [c1, c2, c3]) == AppendAll(log2, EventsOf(db2, c3))
            && Steps.Run(db, [c1, c2, c3]) == Steps.Apply(db2, c3)
  {
    assert [c1] + [c2, c3] == [c1, c2, c3];
    OneCommand(db, log, c1, [c2, c3]);
    TwoCommands(Steps.Apply(db, c1), AppendAll(log, EventsOf(db, c1)), c2, c3);
  }

  // A folder that returns to an earlier digest

  /** The digest of a folder lists members exactly if its subtree has active documents. */
  lemma {:induction false} DigestMembers(db: Database, f: string)
    requires DigestsCurrent(db) && ActiveFolder(db.sources, f)
    ensures var tenant := db.sources.folders[f].tenant;
            && ActiveRecord(db.records, f) && db.records[f].signalDigest.FolderSignalDigest?
            && (db.records[f].signalDigest.members == [] <==> SubtreeDocuments(db.sources, tenant, f) == map[])
            && db.records[f].signalDigest.folderIndex == IndexDigest(db.sources, tenant, f)
            && db.records[f].signalDigest.generationVersion == GenerationVersion(db.records, f)
  {
    assert RecordCurrent(db.sources, db.records, f);
    var documents := SubtreeDocuments(db.sources, db.sources.folders[f].tenant, f);
    Steps.MembersCount(Text.Sorted(documents.Keys), documents, CurrentIndex(db.sources, documents.Keys));
    assert |documents.Keys| == |documents|;
  }

  /** The invalidations of a transaction after which the folder's digest is one the log has not announced yet. */
  lemma {:induction false} NewDigestIsSaid(db: Database, log: seq<Event>, c: Steps.Command, f: string, before: Event)
    requires Consistent(db) && Announced(db, log) && Steps.Admissible(db, c) && Steps.KeepsGenerationVersion(db, c)
    requires forall x | ActiveFolder(Steps.Apply(db, c).sources, x) :: x == f
    requires forall e | e in log && e.SignalsInvalidated? :: e == before
    requires ActiveFolder(Steps.Apply(db, c).sources, f) && f in Steps.Apply(db, c).records
    requires Announcement(Steps.Apply(db, c), f) != before
    ensures Announced(Steps.Apply(db, c), AppendAll(log, EventsOf(db, c)))
  {
    TransactionAnnounces(db, c, log);
  }

  /** A transaction that brings a folder back to a digest announced before the last one says nothing of it. */
  lemma {:induction false} OldDigestIsLost(db: Database, db': Database, log: seq<Event>, events: seq<Event>, f: string)
    requires Announced(db, log) && Informs(db, db', events)
    requires ActiveFolder(db.sources, f) && ActiveFolder(db'.sources, f) && f in db.records && f in db'.records
    requires db'.sources.folders[f].tenant == db.sources.folders[f].tenant
    requires db'.records[f].signalDigest != db.records[f].signalDigest && Announcement(db', f) in log
    ensures !NoneLost(log, events)
  {
    assert Said(db, log, f);
    assert Announcement(db', f) in events && Lost(log, Announcement(db', f));
  }

  /** What the document commands leave of a database whose only folder is `f`. */
  ghost predicate OneFolderHolds(db: Database, f: string, row: FolderSource, member: bool) {
    && Consistent(db) && DigestsCurrent(db) && db.sources.folders == map[f := row] && f in db.records
    && GenerationVersion(db.records, f) == DEFAULT_GENERATION_VERSION
    && (SubtreeDocuments(db.sources, row.tenant, f) != map[] <==> member)
  }

  /** With and without a member, the folder has two digests, each of them always the same when there is none. */
  lemma {:induction false} TwoDigests(db: Database, other: Database, f: string, row: FolderSource, member: bool)
    requires !row.deleted && OneFolderHolds(db, f, row, false) && OneFolderHolds(other, f, row, member)
    ensures member <==> Announcement(other, f) != Announcement(db, f)
  {
    assert ActiveFolder(db.sources, f) && ActiveFolder(other.sources, f);
    DigestMembers(db, f);
    DigestMembers(other, f);
  }

  lemma {:induction false} MemberIndexed(db: Database, f: string, row: FolderSource, d: string, snapshot: Snapshot)
    requires !row.deleted && OneFolderHolds(db, f, row, false) && db.sources.documents == map[] && snapshot.chunks != []
    requires f != "" && Text.Strip(f) == f
    ensures var db' := Steps.IndexDocument(db, row.tenant, d, snapshot, Some([f]));
            && OneFolderHolds(db', f, row, true)
            && db'.sources.documents.Keys == {d} && !db'.sources.documents[d].deleted
  {
    var db' := Steps.IndexDocument(db, row.tenant, d, snapshot, Some([f]));
    Steps.IndexDocumentKeeps(db, row.tenant, d, snapshot, Some([f]));
    Limits.DocumentIsIndexed(db, row.tenant, d, snapshot, Some([f]));
    FolderListStored(db, row.tenant, d, snapshot, [f]);
    assert [f][0] == f;
    assert f in FolderIdsForDocument(db'.sources, row.tenant, d);
    SubtreeIsReachable(ActiveParents(db'.sources, row.tenant), f, f);
    assert d in SubtreeDocuments(db'.sources, row.tenant, f);
  }

  lemma {:induction false} NoMembers(s: Sources, tenant: string, f: string)
    requires forall d | d in s.documents :: s.documents[d].deleted
    ensures SubtreeDocuments(s, tenant, f) == map[]
  {
  }

  lemma {:induction false} DeletionKeepsVersion(db: Database, d: string, f: string)
    requires d in db.sources.documents && !db.sources.documents[d].deleted && f in db.records
    ensures var db' := Steps.DeleteDocument(db, d);
            f in db'.records && GenerationVersion(db'.records, f) == GenerationVersion(db.records, f)
            && db'.sources.documents.Keys == db.sources.documents.Keys
  {
    var tenant := db.sources.documents[d].tenant;
    MarkingKeepsVersions(db.records, Steps.AffectedByDelete(db.sources, db.signals, tenant, d),
                         x => FreshRecord(Steps.AfterDocumentDelete(db.sources, d), db.records, tenant, x, Pending), f);
  }

  lemma {:induction false} MemberDeleted(db: Database, f: string, row: FolderSource, d: string)
    requires OneFolderHolds(db, f, row, true) && db.sources.documents.Keys == {d} && !db.sources.documents[d].deleted
    ensures OneFolderHolds(Steps.DeleteDocument(db, d), f, row, false)
  {
    var db' := Steps.DeleteDocument(db, d);
    Steps.DeleteDocumentKeeps(db, d);
    Limits.DocumentIsDeleted(db, d);
    DeletionKeepsVersion(db, d, f);
    assert forall x | x in db'.sources.documents :: x == d;
    NoMembers(db'.sources, row.tenant, f);
  }

  lemma {:induction false} FolderHeld(f: string, row: FolderSource)
    requires !row.deleted
    ensures var db := Steps.Apply(Steps.EMPTY, Steps.IndexFolderCommand(f, row));
            OneFolderHolds(db, f, row, false) && db.sources.documents == map[]
  {
    var start := Limits.OneFolder(f, row);
    assert start[1..] == [];
    NoMembers(Steps.Apply(Steps.EMPTY, start[0]).sources, row.tenant, f);
  }

  lemma {:induction false} FirstSaid(before: Database, db: Database, events: seq<Event>, f: string, row: FolderSource)
    requires !row.deleted && OneFolderHolds(db, f, row, false)
    requires Informs(before, db, events) && Announced(db, AppendAll([], events))
    ensures forall e | e in AppendAll([], events) && e.SignalsInvalidated? :: e == Announcement(db, f)
    ensures Announcement(db, f) in AppendAll([], events)
  {
    var log := AppendAll([], events);
    forall e | e in log && e.SignalsInvalidated? ensures e == Announcement(db, f) {
      AppendAllContents([], events, e);
    }
    assert ActiveFolder(db.sources, f) && Said(db, log, f);
    LastIsInLog(log, SubjectOf(Announcement(db, f)));
  }

  /** After the folder is indexed, the log has the one invalidation of its first digest. */
  lemma {:induction false} FolderSaid(f: string, row: FolderSource)
    requires !row.deleted
    ensures var c := Steps.IndexFolderCommand(f, row);
            var db, log := Steps.Apply(Steps.EMPTY, c), AppendAll([], EventsOf(Steps.EMPTY, c));
            && OneFolderHolds(db, f, row, false) && db.sources.documents == map[] && Announced(db, log)
            && (forall e | e in log && e.SignalsInvalidated? :: e == Announcement(db, f))
            && Announcement(db, f) in log
  {
    var c := Steps.IndexFolderCommand(f, row);
    FolderHeld(f, row);
    TransactionAnnounces(Steps.EMPTY, c, []);
    FirstSaid(Steps.EMPTY, Steps.Apply(Steps.EMPTY, c), EventsOf(Steps.EMPTY, c), f, row);
  }

  /** After the document is indexed, the log has the invalidation of the first digest and ends with another. */
  lemma {:induction false} MemberSaid(db: Database, log: seq<Event>, f: string, row: FolderSource, d: string,
                                      snapshot: Snapshot)
    requires !row.deleted && OneFolderHolds(db, f, row, false) && db.sources.documents == map[] && Announced(db, log)
    requires forall e | e in log && e.SignalsInvalidated? :: e == Announcement(db, f)
    requires snapshot.chunks != [] && f != "" && Text.Strip(f) == f
    ensures var c := Steps.IndexDocumentCommand(row.tenant, d, snapshot, Some([f]));
            var db', log' := Steps.Apply(db, c), AppendAll(log, EventsOf(db, c));
            && OneFolderHolds(db', f, row, true) && Announced(db', log')
            && db'.sources.documents.Keys == {d} && !db'.sources.documents[d].deleted
            && (Announcement(db, f) in log ==> Announcement(db, f) in log')
  {
    var c := Steps.IndexDocumentCommand(row.tenant, d, snapshot, Some([f]));
    MemberIndexed(db, f, row, d, snapshot);
    assert OneFolderHolds(Steps.Apply(db, c), f, row, true);
    TwoDigests(db, Steps.Apply(db, c), f, row, true);
    NewDigestIsSaid(db, log, c, f, Announcement(db, f));
    AppendAllContents(log, EventsOf(db, c), Announcement(db, f));
  }

  /** When the document is deleted, the invalidation of the first digest is dropped. */
  lemma {:induction false} DeletionUnsaid(first: Database, db: Database, log: seq<Event>, f: string, row: FolderSource,
                                          d: string)
    requires !row.deleted && OneFolderHolds(first, f, row, false) && OneFolderHolds(db, f, row, true)
    requires Announced(db, log) && Announcement(first, f) in log
    requires db.sources.documents.Keys == {d} && !db.sources.documents[d].deleted
    ensures var c := Steps.DeleteDocumentCommand(d);
            !Announced(Steps.Apply(db, c), AppendAll(log, EventsOf(db, c)))
  {
    var c := Steps.DeleteDocumentCommand(d);
    MemberDeleted(db, f, row, d);
    TwoDigests(first, db, f, row, true);
    TwoDigests(first, Steps.Apply(db, c), f, row, false);
    TransactionAnnounces(db, c, log);
    OldDigestIsLost(db, Steps.Apply(db, c), log, EventsOf(db, c), f);
  }

  /**
   Index a folder, index a document into it, and delete the document: the folder's digest is the first one
   again, whose invalidation the log has already, so the log ends with the invalidation of the second.
   After the first two commands the log announces every digest; after the third it does not.
   */
  lemma {:induction false} EarlierDigestIsLost(f: string, row: FolderSource, d: string, snapshot: Snapshot)
    requires !row.deleted && snapshot.chunks != [] && f != "" && Text.Strip(f) == f
    ensures var c1 := Steps.IndexFolderCommand(f, row);
            var c2 := Steps.IndexDocumentCommand(row.tenant, d, snapshot, Some([f]));
            var c3 := Steps.DeleteDocumentCommand(d);
            && Announced(Steps.Run(Steps.EMPTY, [c1, c2]), LogOf(Steps.EMPTY, [], [c1, c2]))
            && !Announced(Steps.Run(Steps.EMPTY, [c1, c2, c3]), LogOf(Steps.EMPTY, [], [c1, c2, c3]))
  {
    var c1 := Steps.IndexFolderCommand(f, row);
    var c2 := Steps.IndexDocumentCommand(row.tenant, d, snapshot, Some([f]));
    var c3 := Steps.DeleteDocumentCommand(d);
    var db1, log1 := Steps.Apply(Steps.EMPTY, c1), AppendAll([], EventsOf(Steps.EMPTY, c1));
    var db2, log2 := Steps.Apply(db1, c2), AppendAll(log1, EventsOf(db1, c2));
    FolderSaid(f, row);
    MemberSaid(db1, log1, f, row, d, snapshot);
    DeletionUnsaid(db1, db2, log2, f, row, d);
    TwoCommands(Steps.EMPTY, [], c1, c2);
    ThreeCommands(Steps.EMPTY, [], c1, c2, c3);
  }
}
