/**
 What the log says last about the folders themselves. The stores that follow the log keep a folder or
 drop it by its last event, so the log should say of each folder what its row says.
 */
module IndexingFolderEvents {
  import opened Common
  import opened FolderDigests
  import opened FolderFrames
  import opened FolderGraph
  import opened IndexingAnnouncements
  import opened IndexingSession
  import opened IndexingSteps
  import opened Outbox
  import Text

  /** What the row of a folder would have the log say. */
  function Word(s: Sources, tenant: string, f: string): Option<Event> {
    if f !in s.folders || s.folders[f].tenant != tenant then None
    else if s.folders[f].deleted then Some(FolderDeleted(tenant, f, s.folders[f].version))
    else Some(FolderIndexed(tenant, f, s.folders[f]))
  }

  ghost predicate FoldersTold(s: Sources, log: seq<Event>) {
    forall tenant, f :: LastAbout(log, FolderItself(tenant, f)) == Word(s, tenant, f)
  }

  /** The event of a command about the folder it names, if the command is applied. */
  function OwnEvent(db: Database, c: Command): Option<Event> {
    match c
    case IndexFolderCommand(f, row) =>
      if AcceptsFolder(db.sources, f, row) then Some(FolderIndexed(row.tenant, f, row)) else None
    case DeleteFolderCommand(f) =>
      if f in db.sources.folders && !db.sources.folders[f].deleted && f in db.records then
        Some(FolderDeleted(db.sources.folders[f].tenant, f, db.sources.folders[f].version))
      else None
    case _ => None
  }

  predicate AboutFolder(e: Event) {
    e.FolderIndexed? || e.FolderDeleted?
  }

  /** The event about the folder comes first, and no other event of the transaction is about a folder itself. */
  ghost predicate OnlyFirst(events: seq<Event>, first: Option<Event>) {
    if first.Some? then
      events != [] && events[0] == first.value && forall i | 0 < i < |events| :: !AboutFolder(events[i])
    else forall e | e in events :: !AboutFolder(e)
  }

  lemma {:induction false} FirstAndRest(first: seq<Event>, rest: seq<Event>)
    requires forall e | e in rest :: e.SignalsInvalidated?
    requires forall e | e in first :: !AboutFolder(e)
    ensures forall e | e in first + rest :: !AboutFolder(e)
  {
  }

  lemma {:induction false} OneAndRest(first: Event, rest: seq<Event>)
    requires forall e | e in rest :: e.SignalsInvalidated?
    ensures OnlyFirst([first] + rest, Some(first))
  {
    forall i | 0 < i < |[first] + rest| ensures !AboutFolder(([first] + rest)[i]) {
      assert ([first] + rest)[i] in rest;
    }
  }

  lemma {:induction false} OwnEventIsFirst(db: Database, c: Command)
    ensures OnlyFirst(EventsOf(db, c), OwnEvent(db, c))
  {
    match c
    case IndexFolderCommand(f, row) =>
      if AcceptsFolder(db.sources, f, row) {
        FolderInvalidationsAreOthers(db, f, row);
        OneAndRest(FolderIndexed(row.tenant, f, row), FolderInvalidations(db, f, row));
      }
    case DeleteFolderCommand(f) =>
      if OwnEvent(db, c).Some? {
        DeletionIsFirst(db, f);
      }
    case IndexDocumentCommand(tenant, d, snapshot, folderIds) =>
      DocumentEventsOnly(db, tenant, d, snapshot, folderIds);
    case DeleteDocumentCommand(d) =>
      if d in db.sources.documents {
        DocumentDeletionOnly(db, d);
      }
    case ReplaceFolderSignalsCommand(_, _, _, _, _) =>
  }

  lemma {:induction false} FolderInvalidationsAreOthers(db: Database, f: string, row: FolderSource)
    ensures forall e | e in FolderInvalidations(db, f, row) :: e.SignalsInvalidated?
  {
    var s := AfterFolderUpsert(db.sources, f, row);
    var ids := AffectedByUpsert(CurrentFolder(db.sources, row.tenant, f), ActiveParents(s, row.tenant), f, row);
    InvalidationsAreOthers(s, db.records[f := FreshRecord(s, db.records, row.tenant, f, Pending)], row.tenant,
                           Text.Sorted(ids));
  }

  lemma {:induction false} DeletionIsFirst(db: Database, f: string)
    requires f in db.sources.folders && f in db.records
    ensures var row := db.sources.folders[f];
            OnlyFirst(FolderDeletionEvents(db, f), Some(FolderDeleted(row.tenant, f, row.version)))
  {
    var row := db.sources.folders[f];
    var s := AfterFolderUpsert(db.sources, f, row.(deleted := true));
    var records := db.records[f := db.records[f].(deleted := true)];
    var ids := Text.Sorted(AncestorFolderIds(ActiveParents(db.sources, row.tenant), {f}) - {f});
    InvalidationsAreOthers(s, records, row.tenant, ids);
    OneAndRest(FolderDeleted(row.tenant, f, row.version), InvalidationEvents(s, records, row.tenant, ids));
  }

  lemma {:induction false} DocumentDeletionOnly(db: Database, d: string)
    requires d in db.sources.documents
    ensures forall e | e in DeletionEvents(db, d) :: !AboutFolder(e)
  {
    var row := db.sources.documents[d];
    var ids := Text.Sorted(AffectedByDelete(db.sources, db.signals, row.tenant, d));
    InvalidationsAreOthers(AfterDocumentDelete(db.sources, d), db.records, row.tenant, ids);
    FirstAndRest([DocumentDeleted(row.tenant, d, row.version, ids)],
                 InvalidationEvents(AfterDocumentDelete(db.sources, d), db.records, row.tenant, ids));
  }

  lemma {:induction false} DocumentEventsOnly(db: Database, tenant: string, d: string, snapshot: Snapshot,
                                              folderIds: Option<seq<string>>)
    ensures forall e | e in IndexingEvents(db, tenant, d, snapshot, folderIds) :: !AboutFolder(e)
  {
    var upserted := db.(sources := AfterDocumentUpsert(db.sources, tenant, d, snapshot));
    if snapshot.chunks == [] {
      DocumentDeletionOnly(upserted, d);
    } else {
      DocumentInvalidationsAreOthers(upserted, tenant, d, snapshot, folderIds);
      FirstAndRest([DocumentIndexed(tenant, d, snapshot)] +
                   if folderIds.Some? then [RelationsIndexed(tenant, d, snapshot.version, folderIds.value)] else [],
                   DocumentInvalidations(upserted, tenant, d, snapshot, folderIds));
    }
  }

  lemma {:induction false} FirstSpeaks(log: seq<Event>, events: seq<Event>, first: Option<Event>, subject: Subject)
    requires OnlyFirst(events, first) && subject.FolderItself? && (first.Some? ==> AboutFolder(first.value))
    ensures LastAbout(AppendAll(log, events), subject)
         == if first.Some? && SubjectOf(first.value) == subject then LastUnlessLost(log, first.value)
            else LastAbout(log, subject)
  {
    if first.Some? && SubjectOf(first.value) == subject {
      AppendAllSpeaksLast(log, events, 0);
    } else {
      forall e | e in events ensures SubjectOf(e) != subject {
        var i :| 0 <= i < |events| && events[i] == e;
      }
      OthersSpeakNot(log, events, subject);
    }
  }

  /** What the log says last about a folder after a transaction. */
  lemma {:induction false} FolderSpoken(db: Database, c: Command, log: seq<Event>, tenant: string, f: string)
    ensures LastAbout(AppendAll(log, EventsOf(db, c)), FolderItself(tenant, f))
         == if OwnEvent(db, c).Some? && SubjectOf(OwnEvent(db, c).value) == FolderItself(tenant, f)
            then LastUnlessLost(log, OwnEvent(db, c).value) else LastAbout(log, FolderItself(tenant, f))
  {
    OwnEventIsFirst(db, c);
    FirstSpeaks(log, EventsOf(db, c), OwnEvent(db, c), FolderItself(tenant, f));
  }

  /** The folder rows after an event about a folder. */
  function Carried(folders: map<string, FolderSource>, own: Option<Event>): map<string, FolderSource> {
    match own
    case Some(FolderIndexed(_, f, row)) => folders[f := row]
    case Some(FolderDeleted(_, f, _)) => if f in folders then folders[f := folders[f].(deleted := true)] else folders
    case _ => folders
  }

  lemma {:induction false} FoldersAfter(db: Database, c: Command)
    requires Consistent(db)
    ensures Apply(db, c).sources.folders == Carried(db.sources.folders, OwnEvent(db, c))
  {
    match c
    case DeleteFolderCommand(f) => assert ActiveFolder(db.sources, f) <==> ActiveRecord(db.records, f);
    case _ =>
  }

  /** What a transaction does to the rows of folders, said as the log would. */
  lemma {:induction false} WordStep(db: Database, c: Command, tenant: string, f: string)
    requires Consistent(db) && Admissible(db, c)
    ensures Word(Apply(db, c).sources, tenant, f)
         == if OwnEvent(db, c).Some? && SubjectOf(OwnEvent(db, c).value) == FolderItself(tenant, f)
            then OwnEvent(db, c) else Word(db.sources, tenant, f)
  {
    FoldersAfter(db, c);
    CarriedWord(db.sources, Apply(db, c).sources, OwnEvent(db, c), tenant, f);
  }

  lemma {:induction false} CarriedWord(s: Sources, s': Sources, own: Option<Event>, tenant: string, f: string)
    requires s'.folders == Carried(s.folders, own) && (own.Some? ==> AboutFolder(own.value))
    requires own.Some? && own.value.FolderIndexed? ==>
      && !own.value.folder.deleted && own.value.folder.tenant == own.value.tenant
      && (own.value.folderId in s.folders ==> s.folders[own.value.folderId].tenant == own.value.tenant)
    requires own.Some? && own.value.FolderDeleted? ==>
      && own.value.folderId in s.folders && s.folders[own.value.folderId].tenant == own.value.tenant
      && s.folders[own.value.folderId].version == own.value.version
    ensures Word(s', tenant, f)
         == if own.Some? && SubjectOf(own.value) == FolderItself(tenant, f) then own else Word(s, tenant, f)
  {
  }

  /** Row and log change together: with the event of the command, if it is about this folder. */
  ghost predicate Follows(s: Sources, s': Sources, log: seq<Event>, log': seq<Event>, own: Option<Event>,
                          tenant: string, f: string)
  {
    var subject := FolderItself(tenant, f);
    if own.Some? && SubjectOf(own.value) == subject then
      Word(s', tenant, f) == own && LastAbout(log', subject) == LastUnlessLost(log, own.value)
    else Word(s', tenant, f) == Word(s, tenant, f) && LastAbout(log', subject) == LastAbout(log, subject)
  }

  lemma {:induction false} FollowersTold(s: Sources, s': Sources, log: seq<Event>, log': seq<Event>, own: Option<Event>)
    requires FoldersTold(s, log) && (own.Some? ==> AboutFolder(own.value))
    requires forall tenant, f :: Follows(s, s', log, log', own, tenant, f)
    ensures FoldersTold(s', log') <==> (own.Some? ==> !Lost(log, own.value))
  {
    forall tenant, f
      ensures LastAbout(log', FolderItself(tenant, f)) == Word(s', tenant, f) <==>
              (own.Some? && SubjectOf(own.value) == FolderItself(tenant, f) ==> !Lost(log, own.value))
    {
      assert Follows(s, s', log, log', own, tenant, f);
    }
    if own.Some? {
      var subject := SubjectOf(own.value);
      assert subject == FolderItself(subject.tenant, subject.id);
    }
  }

  /**
   If the log says of every folder what its row says, it does so after a transaction exactly when the
   event about the folder of the command is not lost.
   */
  lemma {:induction false} TransactionTellsFolders(db: Database, c: Command, log: seq<Event>)
    requires Consistent(db) && Admissible(db, c) && FoldersTold(db.sources, log)
    ensures FoldersTold(Apply(db, c).sources, AppendAll(log, EventsOf(db, c)))
       <==> (OwnEvent(db, c).Some? ==> !Lost(log, OwnEvent(db, c).value))
  {
    var s', log' := Apply(db, c).sources, AppendAll(log, EventsOf(db, c));
    forall tenant, f ensures Follows(db.sources, s', log, log', OwnEvent(db, c), tenant, f) {
      FolderSpoken(db, c, log, tenant, f);
      WordStep(db, c, tenant, f);
    }
    FollowersTold(db.sources, s', log, log', OwnEvent(db, c));
  }

  /** An applied deletion is the last word on its folder exactly when that version was not deleted before. */
  lemma {:induction false} FolderDeletionSaid(db: Database, f: string, log: seq<Event>)
    requires Consistent(db) && FoldersTold(db.sources, log) && ActiveFolder(db.sources, f)
    ensures var row := db.sources.folders[f];
            LastAbout(AppendAll(log, EventsOf(db, DeleteFolderCommand(f))), FolderItself(row.tenant, f))
            == Some(FolderDeleted(row.tenant, f, row.version))
            <==> FolderDeleted(row.tenant, f, row.version) !in log
  {
    assert ActiveRecord(db.records, f);
    var row := db.sources.folders[f];
    FolderSpoken(db, DeleteFolderCommand(f), log, row.tenant, f);
    assert LastAbout(log, FolderItself(row.tenant, f)) == Word(db.sources, row.tenant, f);
  }

  /** An accepted folder is the last word exactly when the log has not said the same before what it says now. */
  lemma {:induction false} FolderIndexSaid(db: Database, f: string, row: FolderSource, log: seq<Event>)
    requires AcceptsFolder(db.sources, f, row)
    ensures LastAbout(AppendAll(log, EventsOf(db, IndexFolderCommand(f, row))), FolderItself(row.tenant, f))
         == LastUnlessLost(log, FolderIndexed(row.tenant, f, row))
  {
    FolderSpoken(db, IndexFolderCommand(f, row), log, row.tenant, f);
  }

  // Runs in which versions determine what they send

  type Versions = (string, string) -> FolderSource

  predicate Determined(versions: Versions, c: Command) {
    c.IndexFolderCommand? ==> versions(c.folderId, c.row.version) == c.row
  }

  /** The command sends the stored version of a folder again after its deletion. */
  predicate ResendsDeleted(s: Sources, c: Command) {
    && c.IndexFolderCommand? && c.folderId in s.folders
    && s.folders[c.folderId].deleted && s.folders[c.folderId].version == c.row.version
  }

  /** A logged version is the stored one, or was updated earlier; a deleted one is stored as deleted, or earlier. */
  ghost predicate LoggedFolder(versions: Versions, s: Sources, e: Event) {
    match e
    case FolderIndexed(_, f, row) =>
      && f in s.folders && versions(f, row.version) == row
      && (row.version == s.folders[f].version || row.updatedAt < s.folders[f].updatedAt)
    case FolderDeleted(_, f, version) =>
      && f in s.folders
      && (if version == s.folders[f].version then s.folders[f].deleted
          else versions(f, version).updatedAt < s.folders[f].updatedAt)
    case _ => true
  }

  ghost predicate FolderHistory(versions: Versions, s: Sources, log: seq<Event>) {
    && (forall e | e in log :: LoggedFolder(versions, s, e))
    && (forall f | f in s.folders ::
          && versions(f, s.folders[f].version) == s.folders[f].(deleted := false)
          && FolderIndexed(s.folders[f].tenant, f, versions(f, s.folders[f].version)) in log)
  }

  /** Such a version is the only one whose event is lost. */
  lemma {:induction false} LostIfResent(versions: Versions, db: Database, c: Command, log: seq<Event>)
    requires Admissible(db, c) && Determined(versions, c) && FoldersTold(db.sources, log)
    requires FolderHistory(versions, db.sources, log)
    ensures OwnEvent(db, c).Some? && Lost(log, OwnEvent(db, c).value) <==> ResendsDeleted(db.sources, c)
  {
    if OwnEvent(db, c).Some? {
      var e := OwnEvent(db, c).value;
      assert LastAbout(log, FolderItself(e.tenant, e.folderId)) == Word(db.sources, e.tenant, e.folderId);
      if e in log {
        assert LoggedFolder(versions, db.sources, e);
      }
    }
  }

  lemma {:induction false} FolderHistoryKept(versions: Versions, db: Database, c: Command, log: seq<Event>)
    requires Consistent(db) && Admissible(db, c) && Determined(versions, c) && !ResendsDeleted(db.sources, c)
    requires FolderHistory(versions, db.sources, log)
    ensures FolderHistory(versions, Apply(db, c).sources, AppendAll(log, EventsOf(db, c)))
  {
    var events := EventsOf(db, c);
    OwnEventIsFirst(db, c);
    FoldersAfter(db, c);
    forall e: Event | AboutFolder(e)
      ensures e in AppendAll(log, events) <==> e in log || OwnEvent(db, c) == Some(e)
    {
      AppendAllContents(log, events, e);
      if e in events {
        var i :| 0 <= i < |events| && events[i] == e;
      }
      if OwnEvent(db, c) == Some(e) {
        assert events[0] == e;
      }
    }
    HistoryCarried(versions, db.sources, Apply(db, c).sources, OwnEvent(db, c), log, AppendAll(log, events));
  }

  /** The row that an event about a folder is about, as it is before the event. */
  predicate OwnRow(versions: Versions, s: Sources, own: Option<Event>) {
    match own
    case None => true
    case Some(FolderIndexed(tenant, f, row)) =>
      && !row.deleted && row.tenant == tenant && versions(f, row.version) == row
      && (f in s.folders ==> s.folders[f].tenant == tenant)
      && (f in s.folders && row.version == s.folders[f].version ==> !s.folders[f].deleted)
      && (f in s.folders && row.version != s.folders[f].version ==> s.folders[f].updatedAt < row.updatedAt)
    case Some(FolderDeleted(tenant, f, version)) =>
      && f in s.folders && s.folders[f].tenant == tenant && s.folders[f].version == version
    case _ => false
  }

  lemma {:induction false} HistoryCarried(versions: Versions, s: Sources, s': Sources, own: Option<Event>,
                                          log: seq<Event>, log': seq<Event>)
    requires FolderHistory(versions, s, log) && OwnRow(versions, s, own) && s'.folders == Carried(s.folders, own)
    requires forall e: Event | AboutFolder(e) :: e in log' <==> e in log || own == Some(e)
    ensures FolderHistory(versions, s', log')
  {
    forall e | e in log' && AboutFolder(e) ensures LoggedFolder(versions, s', e) {
      if e in log {
        assert LoggedFolder(versions, s, e);
      }
    }
  }

  ghost predicate Fair(versions: Versions, db: Database, c: Command) {
    Sound(db, c) && Determined(versions, c) && !ResendsDeleted(db.sources, c)
  }

  lemma {:induction false} RunTellsFolders(versions: Versions, db: Database, commands: seq<Command>, log: seq<Event>)
    requires Consistent(db) && FoldersTold(db.sources, log) && FolderHistory(versions, db.sources, log)
    requires Throughout(db, commands, (x, c) => Fair(versions, x, c))
    ensures FoldersTold(Run(db, commands).sources, LogOf(db, log, commands))
    decreases |commands|
  {
    if commands != [] {
      var c := commands[0];
      assert Fair(versions, db, c);
      LostIfResent(versions, db, c, log);
      TransactionTellsFolders(db, c, log);
      FolderHistoryKept(versions, db, c, log);
      ApplyKeeps(db, c);
      RunTellsFolders(versions, Apply(db, c), commands[1..], AppendAll(log, EventsOf(db, c)));
    }
  }

  /**
   In every run from the empty database in which versions determine what they send and no version is sent
   again after its own deletion, the log ends with what the row of each folder says: its last content if
   it is active, its deletion if it is not. Moves, deletions and later versions never get lost.
   */
  lemma {:induction false} LogFollowsFolders(versions: Versions, commands: seq<Command>)
    requires Throughout(EMPTY, commands, (x, c) => Fair(versions, x, c))
    ensures FoldersTold(Run(EMPTY, commands).sources, LogOf(EMPTY, [], commands))
  {
    RunTellsFolders(versions, EMPTY, commands, []);
  }

  lemma {:induction false} FolderStored(db: Database, f: string, row: FolderSource)
    requires AcceptsFolder(db.sources, f, row)
    ensures var s := Apply(db, IndexFolderCommand(f, row)).sources;
            f in s.folders && s.folders[f] == row
  {
  }

  lemma {:induction false} FolderRemoved(db: Database, f: string, row: FolderSource, log: seq<Event>)
    requires Consistent(db) && f in db.sources.folders && db.sources.folders[f] == row && !row.deleted
    requires forall e | e in log && AboutFolder(e) :: e.FolderIndexed?
    ensures var c := DeleteFolderCommand(f);
            var db', log' := Apply(db, c), AppendAll(log, EventsOf(db, c));
            && f in db'.sources.folders && db'.sources.folders[f] == row.(deleted := true)
            && LastAbout(log', FolderItself(row.tenant, f)) == Some(FolderDeleted(row.tenant, f, row.version))
            && (forall e | e in log :: e in log')
  {
    assert ActiveFolder(db.sources, f) && ActiveRecord(db.records, f);
    FolderSpoken(db, DeleteFolderCommand(f), log, row.tenant, f);
    forall e | e in log ensures e in AppendAll(log, EventsOf(db, DeleteFolderCommand(f))) {
      AppendAllContents(log, EventsOf(db, DeleteFolderCommand(f)), e);
    }
  }

  lemma {:induction false} FolderIndexedFirst(f: string, row: FolderSource)
    requires !row.deleted
    ensures var c := IndexFolderCommand(f, row);
            var db, log := Apply(EMPTY, c), AppendAll([], EventsOf(EMPTY, c));
            && Consistent(db) && f in db.sources.folders && db.sources.folders[f] == row
            && FolderIndexed(row.tenant, f, row) in log
            && (forall e | e in log && AboutFolder(e) :: e.FolderIndexed?)
  {
    var c := IndexFolderCommand(f, row);
    IndexFolderKeeps(EMPTY, f, row);
    FolderStored(EMPTY, f, row);
    OwnEventIsFirst(EMPTY, c);
    FirstIsLogged(EventsOf(EMPTY, c), FolderIndexed(row.tenant, f, row));
  }

  lemma {:induction false} FirstIsLogged(events: seq<Event>, first: Event)
    requires OnlyFirst(events, Some(first)) && first.FolderIndexed?
    ensures first in AppendAll([], events)
    ensures forall e | e in AppendAll([], events) && AboutFolder(e) :: e.FolderIndexed?
  {
    AppendAllContents([], events, first);
    forall e | e in AppendAll([], events) && AboutFolder(e) ensures e.FolderIndexed? {
      AppendAllContents([], events, e);
      var i :| 0 <= i < |events| && events[i] == e;
    }
  }

  lemma {:induction false} FolderResent(db: Database, f: string, row: FolderSource, log: seq<Event>)
    requires !row.deleted && f in db.sources.folders && db.sources.folders[f] == row.(deleted := true)
    requires FolderIndexed(row.tenant, f, row) in log
    requires LastAbout(log, FolderItself(row.tenant, f)) == Some(FolderDeleted(row.tenant, f, row.version))
    ensures var c := IndexFolderCommand(f, row);
            LastAbout(AppendAll(log, EventsOf(db, c)), FolderItself(row.tenant, f))
            == Some(FolderDeleted(row.tenant, f, row.version))
  {
    assert Lost(log, FolderIndexed(row.tenant, f, row));
    FolderIndexSaid(db, f, row, log);
  }

  /** Index a folder, delete it, index the same version again: it is active, and the log ends with its deletion. */
  lemma {:induction false} ResentFolderIsLost(f: string, row: FolderSource)
    requires !row.deleted
    ensures var index, delete := IndexFolderCommand(f, row), DeleteFolderCommand(f);
            var commands := [index, delete, index];
            && ActiveFolder(Run(EMPTY, commands).sources, f)
            && LastAbout(LogOf(EMPTY, [], commands), FolderItself(row.tenant, f))
               == Some(FolderDeleted(row.tenant, f, row.version))
  {
    var index, delete := IndexFolderCommand(f, row), DeleteFolderCommand(f);
    var db1, log1 := Apply(EMPTY, index), AppendAll([], EventsOf(EMPTY, index));
    FolderIndexedFirst(f, row);
    FolderRemoved(db1, f, row, log1);
    FolderResent(Apply(db1, delete), f, row, AppendAll(log1, EventsOf(db1, delete)));
    FolderStored(Apply(db1, delete), f, row);
    ThreeCommands(EMPTY, [], index, delete, index);
  }
}
