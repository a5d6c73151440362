/**
 What each indexing command leaves in the tables, told from the tables before it and the command
 alone: which commands are stale, which memberships a document has, which folders lose their signals.
 */
module IndexingOutcomes {
  import opened Common
  import opened FolderDigestInputs
  import opened FolderDigests
  import opened FolderFrames
  import opened FolderGraph
  import opened IndexingSession
  import opened IndexingSteps
  import opened Outbox
  import Limits = IndexingLimits
  import Text

  // Stale commands

  /** The folder or document a command sends, with the version and the time of its last update. */
  datatype Source = FolderId(id: string) | DocumentId(id: string)

  datatype Stamp = Stamp(version: string, updatedAt: int)

  function StampOf(s: Sources, x: Source): Option<Stamp> {
    match x
    case FolderId(f) => if f in s.folders then Some(Stamp(s.folders[f].version, s.folders[f].updatedAt)) else None
    case DocumentId(d) =>
      if d in s.documents then Some(Stamp(s.documents[d].version, s.documents[d].updatedAt)) else None
  }

  function Sent(c: Command, x: Source): Option<Stamp> {
    match c
    case IndexFolderCommand(f, row) => if x == FolderId(f) then Some(Stamp(row.version, row.updatedAt)) else None
    case IndexDocumentCommand(_, d, snapshot, _) =>
      if x == DocumentId(d) then Some(Stamp(snapshot.version, snapshot.updatedAt)) else None
    case _ => None
  }

  /** The source is stored under another version, updated at the same time or later. */
  predicate Stale(s: Sources, x: Source, sent: Stamp) {
    match StampOf(s, x)
    case None => false
    case Some(stored) => stored.version != sent.version && sent.updatedAt <= stored.updatedAt
  }

  /** A stale folder command changes nothing and announces nothing; any other stores the row, and no other row. */
  lemma {:induction false} FolderAsSent(db: Database, f: string, row: FolderSource)
    ensures var c := IndexFolderCommand(f, row);
            if Stale(db.sources, FolderId(f), Stamp(row.version, row.updatedAt)) then
              Apply(db, c) == db && EventsOf(db, c) == []
            else
              && Apply(db, c).sources == db.sources.(folders := db.sources.folders[f := row])
              && EventsOf(db, c) != [] && EventsOf(db, c)[0] == FolderIndexed(row.tenant, f, row)
  {
  }

  /** The same for a document, which is stored as deleted if it has no text. */
  lemma {:induction false} DocumentAsSent(db: Database, tenant: string, d: string, snapshot: Snapshot,
                                          folderIds: Option<seq<string>>)
    ensures var c := IndexDocumentCommand(tenant, d, snapshot, folderIds);
            var s, s' := db.sources, Apply(db, c).sources;
            if Stale(s, DocumentId(d), Stamp(snapshot.version, snapshot.updatedAt)) then
              Apply(db, c) == db && EventsOf(db, c) == []
            else
              && s'.documents == s.documents[d := DocumentSource(tenant, snapshot.version, snapshot.updatedAt,
                                                                 snapshot.contentDigest, snapshot.chunks == [])]
              && s'.folders == s.folders
              && (snapshot.chunks != [] ==>
                    && s'.documentIndex == s.documentIndex[d := DocumentIndex(snapshot.indexDigest,
                                                                              snapshot.signalDigest, false)]
                    && EventsOf(db, c) != [] && EventsOf(db, c)[0] == DocumentIndexed(tenant, d, snapshot))
  {
    if AcceptsDocument(db.sources, d, snapshot) {
      if snapshot.chunks == [] {
        EmptyDocumentStored(db, tenant, d, snapshot);
      } else {
        TextIsAnnounced(db, tenant, d, snapshot, folderIds);
      }
    }
  }

  lemma {:induction false} EmptyDocumentStored(db: Database, tenant: string, d: string, snapshot: Snapshot)
    ensures var upserted := db.(sources := AfterDocumentUpsert(db.sources, tenant, d, snapshot));
            var s' := DeleteDocument(upserted, d).sources;
            && s'.documents == db.sources.documents[d := DocumentRow(tenant, snapshot).(deleted := true)]
            && s'.folders == db.sources.folders
  {
    var row := DocumentRow(tenant, snapshot);
    var documents := db.sources.documents;
    assert documents[d := row][d := row.(deleted := true)] == documents[d := row.(deleted := true)];
  }

  lemma {:induction false} TextIsAnnounced(db: Database, tenant: string, d: string, snapshot: Snapshot,
                                           folderIds: Option<seq<string>>)
    requires snapshot.chunks != []
    ensures var events := IndexingEvents(db, tenant, d, snapshot, folderIds);
            events != [] && events[0] == DocumentIndexed(tenant, d, snapshot)
  {
  }

  lemma {:induction false} FolderStamp(db: Database, f: string, row: FolderSource, x: Source)
    ensures var sent := Stamp(row.version, row.updatedAt);
            StampOf(IndexFolder(db, f, row).sources, x)
            == if x == FolderId(f) && !Stale(db.sources, x, sent) then Some(sent) else StampOf(db.sources, x)
  {
    FolderAsSent(db, f, row);
  }

  lemma {:induction false} DocumentStamp(db: Database, tenant: string, d: string, snapshot: Snapshot,
                                         folderIds: Option<seq<string>>, x: Source)
    ensures var sent := Stamp(snapshot.version, snapshot.updatedAt);
            StampOf(IndexDocument(db, tenant, d, snapshot, folderIds).sources, x)
            == if x == DocumentId(d) && !Stale(db.sources, x, sent) then Some(sent) else StampOf(db.sources, x)
  {
    DocumentAsSent(db, tenant, d, snapshot, folderIds);
  }

  lemma {:induction false} FolderDeletionKeepsStamps(db: Database, f: string, x: Source)
    ensures StampOf(DeleteFolder(db, f).sources, x) == StampOf(db.sources, x)
  {
  }

  lemma {:induction false} DocumentDeletionKeepsStamps(db: Database, d: string, x: Source)
    ensures StampOf(DeleteDocument(db, d).sources, x) == StampOf(db.sources, x)
  {
  }

  lemma {:induction false} StampStep(db: Database, c: Command, x: Source)
    ensures StampOf(Apply(db, c).sources, x)
         == if Sent(c, x).Some? && !Stale(db.sources, x, Sent(c, x).value) then Sent(c, x) else StampOf(db.sources, x)
  {
    match c
    case IndexFolderCommand(f, row) => FolderStamp(db, f, row, x);
    case IndexDocumentCommand(tenant, d, snapshot, folderIds) => DocumentStamp(db, tenant, d, snapshot, folderIds, x);
    case DeleteFolderCommand(f) => FolderDeletionKeepsStamps(db, f, x);
    case DeleteDocumentCommand(d) => DocumentDeletionKeepsStamps(db, d, x);
    case ReplaceFolderSignalsCommand(_, _, _, _, _) =>
  }

  /** A stored source stays stored, and is never updated to an earlier time, except by its own version again. */
  lemma {:induction false} UpdatesGoForward(db: Database, c: Command, x: Source)
    requires StampOf(db.sources, x).Some?
    ensures var before, after := StampOf(db.sources, x).value, StampOf(Apply(db, c).sources, x);
            && after.Some?
            && (after.value.version != before.version ==> before.updatedAt < after.value.updatedAt)
            && (after.value.updatedAt < before.updatedAt ==>
                  after.value.version == before.version && Sent(c, x) == after)
  {
    StampStep(db, c, x);
  }

  /** A version has one time of update. */
  ghost predicate Timed(times: (Source, string) -> int, s: Sources) {
    forall x | StampOf(s, x).Some? :: times(x, StampOf(s, x).value.version) == StampOf(s, x).value.updatedAt
  }

  ghost predicate SendsTimed(times: (Source, string) -> int, c: Command) {
    forall x | Sent(c, x).Some? :: times(x, Sent(c, x).value.version) == Sent(c, x).value.updatedAt
  }

  lemma {:induction false} StaysTimed(times: (Source, string) -> int, db: Database, c: Command)
    requires Timed(times, db.sources) && SendsTimed(times, c)
    ensures Timed(times, Apply(db, c).sources)
  {
    forall x | StampOf(Apply(db, c).sources, x).Some?
      ensures var stamp := StampOf(Apply(db, c).sources, x).value;
              times(x, stamp.version) == stamp.updatedAt
    {
      StampStep(db, c, x);
    }
  }

  lemma {:induction false} TimedStep(times: (Source, string) -> int, db: Database, c: Command, x: Source)
    requires Timed(times, db.sources) && SendsTimed(times, c) && StampOf(db.sources, x).Some?
    ensures var before, after := StampOf(db.sources, x).value, StampOf(Apply(db, c).sources, x);
            after.Some? && (after.value == before || before.updatedAt < after.value.updatedAt)
  {
    StampStep(db, c, x);
  }

  lemma {:induction false} RunGoesForward(times: (Source, string) -> int, db: Database, commands: seq<Command>,
                                          x: Source)
    requires Timed(times, db.sources) && forall c | c in commands :: SendsTimed(times, c)
    requires StampOf(db.sources, x).Some?
    ensures Timed(times, Run(db, commands).sources)
    ensures var before, after := StampOf(db.sources, x).value, StampOf(Run(db, commands).sources, x);
            after.Some? && (after.value == before || before.updatedAt < after.value.updatedAt)
    decreases |commands|
  {
    if commands != [] {
      assert commands[0] in commands;
      StaysTimed(times, db, commands[0]);
      TimedStep(times, db, commands[0], x);
      RunGoesForward(times, Apply(db, commands[0]), commands[1..], x);
    }
  }

  /**
   When versions have one time of update each: once another version of a folder or document was stored
   over some version, that version never becomes the stored one again, whatever is sent.
   */
  lemma {:induction false} SupersededNeverReturns(times: (Source, string) -> int, db: Database, first: seq<Command>,
                                                  second: seq<Command>, x: Source)
    requires Timed(times, db.sources) && forall c | c in first || c in second :: SendsTimed(times, c)
    requires StampOf(db.sources, x).Some?
    ensures var before := StampOf(db.sources, x).value;
            var between, after := StampOf(Run(db, first).sources, x), StampOf(Run(Run(db, first), second).sources, x);
            && between.Some? && after.Some?
            && (between.value.version != before.version ==> after.value.version != before.version)
  {
    RunGoesForward(times, db, first, x);
    RunGoesForward(times, Run(db, first), second, x);
    assert times(x, StampOf(db.sources, x).value.version) == StampOf(db.sources, x).value.updatedAt;
  }

  // Memberships of documents

  /** The list names folder `f`: some id of it is `f` once it is stripped, and `f` is not empty. */
  predicate Names(ids: seq<string>, f: string) {
    f != "" && exists i | 0 <= i < |ids| :: Text.Strip(ids[i]) == f
  }

  predicate InFolder(s: Sources, tenant: string, d: string, f: string) {
    Membership(tenant, d, f) in s.relations
  }

  /** A membership is of an active document of its tenant. */
  ghost predicate MembersActive(s: Sources) {
    forall m | m in s.relations ::
      m.documentId in s.documents && s.documents[m.documentId].tenant == m.tenant && !s.documents[m.documentId].deleted
  }

  predicate Accepted(s: Sources, c: Command)
    requires c.IndexDocumentCommand?
  {
    !Stale(s, DocumentId(c.documentId), Stamp(c.snapshot.version, c.snapshot.updatedAt))
  }

  /** The command puts the document into folder `f`. */
  predicate PutsInto(s: Sources, c: Command, tenant: string, d: string, f: string) {
    && c.IndexDocumentCommand? && c.tenant == tenant && c.documentId == d && Accepted(s, c)
    && c.snapshot.chunks != [] && c.folderIds.Some? && Names(c.folderIds.value, f)
  }

  /** The command ends the memberships the document had. */
  predicate TakesOut(s: Sources, c: Command, tenant: string, d: string) {
    || c == DeleteDocumentCommand(d)
    || (&& c.IndexDocumentCommand? && c.tenant == tenant && c.documentId == d && Accepted(s, c)
        && (c.snapshot.chunks == [] || c.folderIds.Some?))
  }

  lemma {:induction false} NamedFolders(ids: seq<string>, f: string)
    ensures f in NormalizedFolderIds(ids) <==> Names(ids, f)
  {
  }

  /**
   After a command, a document is in a folder exactly if the command put it there, or it was there and
   the command does not end its memberships: a document sent without a folder list stays where it was.
   */
  lemma {:induction false} MembershipStep(db: Database, c: Command, tenant: string, d: string, f: string)
    requires MembersActive(db.sources) && Admissible(db, c)
    ensures InFolder(Apply(db, c).sources, tenant, d, f) <==>
            PutsInto(db.sources, c, tenant, d, f)
            || (InFolder(db.sources, tenant, d, f) && !TakesOut(db.sources, c, tenant, d))
  {
    match c
    case IndexDocumentCommand(t, x, snapshot, folderIds) =>
      if folderIds.Some? {
        NamedFolders(folderIds.value, f);
      }
    case _ =>
  }

  lemma {:induction false} MembersStayActive(db: Database, c: Command)
    requires MembersActive(db.sources) && Admissible(db, c)
    ensures MembersActive(Apply(db, c).sources)
  {
    var s' := Apply(db, c).sources;
    forall m | m in s'.relations
      ensures m.documentId in s'.documents && s'.documents[m.documentId].tenant == m.tenant
      ensures !s'.documents[m.documentId].deleted
    {
      assert m == Membership(m.tenant, m.documentId, m.folderId);
      MembershipStep(db, c, m.tenant, m.documentId, m.folderId);
    }
  }

  lemma {:induction false} RunMembersActive(db: Database, commands: seq<Command>)
    requires MembersActive(db.sources) && Throughout(db, commands, Admissible)
    ensures MembersActive(Run(db, commands).sources)
    decreases |commands|
  {
    if commands != [] {
      MembersStayActive(db, commands[0]);
      RunMembersActive(Apply(db, commands[0]), commands[1..]);
    }
  }

  lemma {:induction false} AllowedPrefix(db: Database, commands: seq<Command>, c: Command,
                                         allowed: (Database, Command) -> bool)
    requires Throughout(db, commands + [c], allowed)
    ensures Throughout(db, commands, allowed) && allowed(Run(db, commands), c)
    decreases |commands|
  {
    assert (commands + [c])[0] == if commands == [] then c else commands[0];
    if commands != [] {
      assert (commands + [c])[1..] == commands[1..] + [c];
      AllowedPrefix(Apply(db, commands[0]), commands[1..], c, allowed);
    }
  }

  ghost function SourcesAt(commands: seq<Command>, i: nat): Sources
    requires i <= |commands|
  {
    Run(EMPTY, commands[..i]).sources
  }

  /** Command `i` of the run put the document into the folder, and no later one ended its memberships. */
  ghost predicate PutLast(commands: seq<Command>, tenant: string, d: string, f: string, i: nat)
    requires i < |commands|
  {
    && PutsInto(SourcesAt(commands, i), commands[i], tenant, d, f)
    && forall j | i < j < |commands| :: !TakesOut(SourcesAt(commands, j), commands[j], tenant, d)
  }

  ghost predicate WasPut(commands: seq<Command>, tenant: string, d: string, f: string) {
    exists i | 0 <= i < |commands| :: PutLast(commands, tenant, d, f, i)
  }

  lemma {:induction false} PutLastMore(init: seq<Command>, c: Command, tenant: string, d: string, f: string, i: nat)
    requires i <= |init|
    ensures PutLast(init + [c], tenant, d, f, i) <==>
            if i == |init| then PutsInto(Run(EMPTY, init).sources, c, tenant, d, f)
            else PutLast(init, tenant, d, f, i) && !TakesOut(Run(EMPTY, init).sources, c, tenant, d)
  {
    var commands := init + [c];
    forall j | 0 <= j <= |init| ensures commands[..j] == init[..j] {
    }
    assert init[..|init|] == init && commands[|init|] == c;
    assert forall j | 0 <= j < |init| :: commands[j] == init[j];
  }

  lemma {:induction false} MembershipMore(init: seq<Command>, c: Command, tenant: string, d: string, f: string)
    requires Throughout(EMPTY, init, Admissible) && Admissible(Run(EMPTY, init), c)
    ensures InFolder(Run(EMPTY, init + [c]).sources, tenant, d, f) <==>
            PutsInto(Run(EMPTY, init).sources, c, tenant, d, f)
            || (InFolder(Run(EMPTY, init).sources, tenant, d, f)
                && !TakesOut(Run(EMPTY, init).sources, c, tenant, d))
  {
    Limits.RunMore(EMPTY, init, c);
    RunMembersActive(EMPTY, init);
    MembershipStep(Run(EMPTY, init), c, tenant, d, f);
  }

  /**
   After every run, a document is in exactly the folders that its last accepted command with a folder
   list named, if it was not deleted or sent without text since. Commands without a list, stale ones
   and those about other documents and folders make no difference.
   */
  lemma {:induction false} MembershipsOfRun(commands: seq<Command>, tenant: string, d: string, f: string)
    requires Throughout(EMPTY, commands, Admissible)
    ensures InFolder(Run(EMPTY, commands).sources, tenant, d, f) <==> WasPut(commands, tenant, d, f)
  {
    if commands != [] {
      var n := |commands| - 1;
      var init, c := commands[..n], commands[n];
      assert commands == init + [c];
      AllowedPrefix(EMPTY, init, c, Admissible);
      MembershipsOfRun(init, tenant, d, f);
      PutLastSnoc(init, c, tenant, d, f);
      MembershipMore(init, c, tenant, d, f);
    }
  }

  lemma {:induction false} PutLastSnoc(init: seq<Command>, c: Command, tenant: string, d: string, f: string)
    ensures WasPut(init + [c], tenant, d, f) <==>
            PutsInto(Run(EMPTY, init).sources, c, tenant, d, f)
            || (WasPut(init, tenant, d, f) && !TakesOut(Run(EMPTY, init).sources, c, tenant, d))
  {
    forall i | 0 <= i <= |init|
      ensures PutLast(init + [c], tenant, d, f, i) <==>
              if i == |init| then PutsInto(Run(EMPTY, init).sources, c, tenant, d, f)
              else PutLast(init, tenant, d, f, i) && !TakesOut(Run(EMPTY, init).sources, c, tenant, d)
    {
      PutLastMore(init, c, tenant, d, f, i);
    }
    if i :| 0 <= i < |init| && PutLast(init, tenant, d, f, i) && !TakesOut(Run(EMPTY, init).sources, c, tenant, d) {
      assert PutLast(init + [c], tenant, d, f, i);
    }
    assert PutLast(init + [c], tenant, d, f, |init|) <==> PutsInto(Run(EMPTY, init).sources, c, tenant, d, f);
  }

  // The folders a command touches

  /** Folder `x` lies above some folder of `ids`, or is one of them. */
  ghost predicate Above(s: Sources, tenant: string, ids: set<string>, x: string) {
    exists y | y in ids :: Under(s, tenant, y, x)
  }

  lemma {:induction false} AboveOne(s: Sources, tenant: string, y: string, x: string)
    ensures Above(s, tenant, {y}, x) <==> Under(s, tenant, y, x)
  {
    assert Under(s, tenant, y, x) ==> y in {y};
  }

  /** The active folder keeps its parent. */
  predicate StaysInPlace(s: Sources, f: string, row: FolderSource) {
    ActiveIn(s, row.tenant, f) && s.folders[f].content.parent == row.content.parent
  }

  /** A folder that stays in place alone; one that moves, with all above it or its previous parent after the write. */
  ghost predicate UpsertTouches(s: Sources, s': Sources, f: string, row: FolderSource, x: string) {
    || x == f
    || (&& !StaysInPlace(s, f, row)
        && (|| Under(s', row.tenant, f, x)
            || (ActiveIn(s, row.tenant, f) && s.folders[f].content.parent.Some?
                && Under(s', row.tenant, s.folders[f].content.parent.value, x))))
  }

  /** All above the folders the document is in, before or after. */
  ghost predicate ChangeTouches(s: Sources, s': Sources, tenant: string, d: string, x: string) {
    exists y :: Under(s, tenant, y, x) && (InFolder(s, tenant, d, y) || InFolder(s', tenant, d, y))
  }

  ghost predicate HasSignalAbout(signals: set<FolderSignalRow>, f: string, d: string) {
    exists row :: row in signals && row.folderId == f && row.relatedDocumentId == Some(d)
  }

  /** All above the folders the document is in, or that have a signal about it. */
  ghost predicate DeletionTouches(s: Sources, signals: set<FolderSignalRow>, tenant: string, d: string, x: string) {
    exists y :: Under(s, tenant, y, x) && (InFolder(s, tenant, d, y) || HasSignalAbout(signals, y, d))
  }

  /** The folders whose signals a command invalidates. */
  ghost predicate Touches(db: Database, c: Command, x: string) {
    var s, s' := db.sources, Apply(db, c).sources;
    match c
    case IndexFolderCommand(f, row) =>
      !Stale(s, FolderId(f), Stamp(row.version, row.updatedAt)) && UpsertTouches(s, s', f, row, x)
    case DeleteFolderCommand(f) => f in s.folders && !s.folders[f].deleted && Under(s, s.folders[f].tenant, f, x)
    case IndexDocumentCommand(tenant, d, snapshot, _) =>
      && Accepted(s, c)
      && if snapshot.chunks == [] then DeletionTouches(s, db.signals, tenant, d, x)
         else ChangeTouches(s, s', tenant, d, x)
    case DeleteDocumentCommand(d) =>
      && d in s.documents && !s.documents[d].deleted
      && DeletionTouches(s, db.signals, s.documents[d].tenant, d, x)
    case ReplaceFolderSignalsCommand(_, _, _, _, _) => false
  }

  lemma {:induction false} AncestorsAreAbove(s: Sources, tenant: string, ids: set<string>, x: string)
    ensures x in AncestorFolderIds(ActiveParents(s, tenant), ids) <==> Above(s, tenant, ids, x)
  {
    var g := ActiveParents(s, tenant);
    AncestorsAreReachable(g, ids, x);
    forall y ensures Under(s, tenant, y, x) <==> Reaches(g, y, x) {
      UnderIsReaches(s, tenant, y, x);
    }
  }

  lemma {:induction false} UpsertAffects(s: Sources, s': Sources, f: string, row: FolderSource, x: string)
    ensures x in AffectedByUpsert(CurrentFolder(s, row.tenant, f), ActiveParents(s', row.tenant), f, row)
       <==> UpsertTouches(s, s', f, row, x)
  {
    var previous := CurrentFolder(s, row.tenant, f);
    AncestorsAreAbove(s', row.tenant, {f}, x);
    AboveOne(s', row.tenant, f, x);
    if previous.Some? && previous.value.content.parent.Some? {
      AncestorsAreAbove(s', row.tenant, {previous.value.content.parent.value}, x);
      AboveOne(s', row.tenant, previous.value.content.parent.value, x);
    }
  }

  lemma {:induction false} ChangeAffects(s: Sources, s': Sources, tenant: string, d: string, x: string)
    ensures x in FoldersAround(s, s', tenant, d) <==> ChangeTouches(s, s', tenant, d, x)
  {
    var seeds := FolderIdsForDocument(s, tenant, d) + FolderIdsForDocument(s', tenant, d);
    AncestorsAreAbove(s, tenant, seeds, x);
    forall y ensures y in seeds <==> InFolder(s, tenant, d, y) || InFolder(s', tenant, d, y) {
      FolderIdsAre(s, tenant, d, y);
      FolderIdsAre(s', tenant, d, y);
    }
  }

  lemma {:induction false} FolderIdsAre(s: Sources, tenant: string, d: string, y: string)
    ensures y in FolderIdsForDocument(s, tenant, d) <==> InFolder(s, tenant, d, y)
  {
    if y in FolderIdsForDocument(s, tenant, d) {
      var m :| m in s.relations && m.tenant == tenant && m.documentId == d && m.folderId == y;
      assert m == Membership(tenant, d, y);
    }
    if InFolder(s, tenant, d, y) {
      assert Membership(tenant, d, y).folderId == y;
    }
  }

  lemma {:induction false} DeletionAffects(s: Sources, signals: set<FolderSignalRow>, tenant: string, d: string,
                                           x: string)
    ensures x in AffectedByDelete(s, signals, tenant, d) <==> DeletionTouches(s, signals, tenant, d, x)
  {
    var seeds := FolderIdsForDocument(s, tenant, d) + FoldersReferring(signals, d);
    AncestorsAreAbove(s, tenant, seeds, x);
    forall y ensures y in seeds <==> InFolder(s, tenant, d, y) || HasSignalAbout(signals, y, d) {
      FolderIdsAre(s, tenant, d, y);
    }
  }

  /** What a command leaves of the signals and the record of one folder. */
  ghost predicate Invalidated(db: Database, db': Database, x: string) {
    && (forall row | row in db'.signals :: row.folderId != x)
    && (x in db'.records && !db'.records[x].deleted ==> db'.records[x].status == Pending)
  }

  ghost predicate LeftAlone(db: Database, db': Database, x: string) {
    && (forall row: FolderSignalRow | row.folderId == x :: row in db'.signals <==> row in db.signals)
    && (x in db.records <==> x in db'.records) && (x in db.records ==> db'.records[x] == db.records[x])
  }

  lemma {:induction false} InvalidateOutcome(db: Database, s: Sources, upserted: Records, tenant: string,
                                             ids: set<string>, x: string)
    requires x !in ids ==> (x in db.records <==> x in upserted)
    requires x !in ids && x in upserted ==> upserted[x] == db.records[x]
    ensures var db' := Invalidate(s, upserted, db.signals, tenant, ids);
            if x in ids then Invalidated(db, db', x) else LeftAlone(db, db', x)
  {
  }

  /**
   A command leaves the touched folders without signals and pending, and leaves the signals and the
   record of every other folder alone.
   */
  lemma {:induction false} TouchedFolders(db: Database, c: Command, x: string)
    requires Consistent(db) && Admissible(db, c) && !c.ReplaceFolderSignalsCommand?
    ensures if Touches(db, c, x) then Invalidated(db, Apply(db, c), x) else LeftAlone(db, Apply(db, c), x)
  {
    match c
    case IndexFolderCommand(f, row) => FolderIndexTouches(db, f, row, x);
    case DeleteFolderCommand(f) => FolderDeletionTouches(db, f, x);
    case IndexDocumentCommand(tenant, d, snapshot, folderIds) =>
      DocumentIndexTouches(db, tenant, d, snapshot, folderIds, x);
    case DeleteDocumentCommand(d) => DocumentDeletionTouches(db, d, x);
  }

  lemma {:induction false} FolderIndexTouches(db: Database, f: string, row: FolderSource, x: string)
    ensures var c := IndexFolderCommand(f, row);
            if Touches(db, c, x) then Invalidated(db, Apply(db, c), x) else LeftAlone(db, Apply(db, c), x)
  {
    if AcceptsFolder(db.sources, f, row) {
      var s := AfterFolderUpsert(db.sources, f, row);
      var ids := AffectedByUpsert(CurrentFolder(db.sources, row.tenant, f), ActiveParents(s, row.tenant), f, row);
      UpsertAffects(db.sources, s, f, row, x);
      InvalidateOutcome(db, s, db.records[f := FreshRecord(s, db.records, row.tenant, f, Pending)], row.tenant, ids, x);
    }
  }

  lemma {:induction false} FolderDeletionTouches(db: Database, f: string, x: string)
    requires Consistent(db)
    ensures var c := DeleteFolderCommand(f);
            if Touches(db, c, x) then Invalidated(db, Apply(db, c), x) else LeftAlone(db, Apply(db, c), x)
  {
    if ActiveFolder(db.sources, f) {
      var row := db.sources.folders[f];
      var ids := AncestorFolderIds(ActiveParents(db.sources, row.tenant), {f});
      var s := AfterFolderUpsert(db.sources, f, row.(deleted := true));
      assert ActiveRecord(db.records, f);
      var record := db.records[f].(deleted := true);
      FolderDeleteConfined(db, f, s, ids, record);
      DeletedNeedsNoRecompute(s, db.records[f := record], db.signals, row.tenant, ids, f);
      AncestorsAreAbove(db.sources, row.tenant, {f}, x);
      AboveOne(db.sources, row.tenant, f, x);
      InvalidateOutcome(db, s, db.records[f := record], row.tenant, ids, x);
    }
  }

  lemma {:induction false} SameGraph(s: Sources, s': Sources, tenant: string)
    requires s'.folders == s.folders
    ensures ActiveParents(s', tenant) == ActiveParents(s, tenant)
  {
  }

  /** Writing a document row leaves paths and memberships as they are. */
  lemma {:induction false} SamePaths(s: Sources, s': Sources, tenant: string, x: string)
    requires s'.folders == s.folders
    ensures forall y :: Under(s', tenant, y, x) <==> Under(s, tenant, y, x)
  {
    SameGraph(s, s', tenant);
    forall y ensures Under(s', tenant, y, x) <==> Under(s, tenant, y, x) {
      UnderIsReaches(s, tenant, y, x);
      UnderIsReaches(s', tenant, y, x);
    }
  }

  lemma {:induction false} EmptyDocumentTouches(db: Database, tenant: string, d: string, snapshot: Snapshot, x: string)
    ensures var upserted := db.(sources := AfterDocumentUpsert(db.sources, tenant, d, snapshot));
            var db' := DeleteDocument(upserted, d);
            if DeletionTouches(db.sources, db.signals, tenant, d, x) then Invalidated(db, db', x)
            else LeftAlone(db, db', x)
  {
    var upserted := AfterDocumentUpsert(db.sources, tenant, d, snapshot);
    DeletionAffects(upserted, db.signals, tenant, d, x);
    SamePaths(db.sources, upserted, tenant, x);
    assert DeletionTouches(upserted, db.signals, tenant, d, x)
      <==> DeletionTouches(db.sources, db.signals, tenant, d, x);
    InvalidateOutcome(db, AfterDocumentDelete(upserted, d), db.records, tenant,
                      AffectedByDelete(upserted, db.signals, tenant, d), x);
  }

  lemma {:induction false} TextTouches(db: Database, tenant: string, d: string, snapshot: Snapshot,
                                       folderIds: Option<seq<string>>, x: string)
    ensures var upserted := db.(sources := AfterDocumentUpsert(db.sources, tenant, d, snapshot));
            var db' := ProjectDocument(upserted, tenant, d, snapshot, folderIds);
            if ChangeTouches(db.sources, db'.sources, tenant, d, x) then Invalidated(db, db', x)
            else LeftAlone(db, db', x)
  {
    var upserted := AfterDocumentUpsert(db.sources, tenant, d, snapshot);
    var s' := AfterProjection(upserted, tenant, d, snapshot, folderIds);
    ChangeAffects(upserted, s', tenant, d, x);
    SamePaths(db.sources, upserted, tenant, x);
    assert ChangeTouches(upserted, s', tenant, d, x) <==> ChangeTouches(db.sources, s', tenant, d, x);
    InvalidateOutcome(db, s', db.records, tenant, FoldersAround(upserted, s', tenant, d), x);
  }

  lemma {:induction false} DocumentIndexTouches(db: Database, tenant: string, d: string, snapshot: Snapshot,
                                                folderIds: Option<seq<string>>, x: string)
    ensures var c := IndexDocumentCommand(tenant, d, snapshot, folderIds);
            if Touches(db, c, x) then Invalidated(db, Apply(db, c), x) else LeftAlone(db, Apply(db, c), x)
  {
    if AcceptsDocument(db.sources, d, snapshot) {
      if snapshot.chunks == [] {
        EmptyDocumentTouches(db, tenant, d, snapshot, x);
      } else {
        TextTouches(db, tenant, d, snapshot, folderIds, x);
      }
    }
  }

  lemma {:induction false} DocumentDeletionTouches(db: Database, d: string, x: string)
    ensures var c := DeleteDocumentCommand(d);
            if Touches(db, c, x) then Invalidated(db, Apply(db, c), x) else LeftAlone(db, Apply(db, c), x)
  {
    if d in db.sources.documents && !db.sources.documents[d].deleted {
      var tenant := db.sources.documents[d].tenant;
      DeletionAffects(db.sources, db.signals, tenant, d, x);
      InvalidateOutcome(db, AfterDocumentDelete(db.sources, d), db.records, tenant,
                        AffectedByDelete(db.sources, db.signals, tenant, d), x);
    }
  }

  /**
   Accepted signals replace those of their folder and make it ready under their version; nothing else
   changes, and nothing at all if they are not accepted.
   */
  lemma {:induction false} SignalsAsSent(db: Database, tenant: string, f: string, rows: seq<FolderSignalRow>,
                                         expected: Digest, version: string)
    ensures var db' := ReplaceFolderSignals(db, tenant, f, rows, expected, version);
            if ActiveIn(db.sources, tenant, f) && ActiveRecord(db.records, f) && db.records[f].signalDigest == expected
               && Storable(db, f, rows, version)
            then
              && db'.sources == db.sources
              && (forall row :: row in db'.signals <==> row in rows || (row in db.signals && row.folderId != f))
              && db'.records == db.records[f := FolderRecord(db.records[f].indexDigest, expected, version, Ready,
                                                             false)]
            else db' == db
  {
  }

  // Deletions

  /** A deleted folder keeps its row and its record, marked as deleted, and no signals. */
  lemma {:induction false} FolderDeletionAsSent(db: Database, f: string)
    requires Consistent(db)
    ensures var db' := DeleteFolder(db, f);
            if f in db.sources.folders && !db.sources.folders[f].deleted then
              && db'.sources == db.sources.(folders := db.sources.folders[f := db.sources.folders[f].(deleted := true)])
              && f in db'.records && db'.records[f].deleted && (forall row | row in db'.signals :: row.folderId != f)
            else db' == db
  {
    assert ActiveFolder(db.sources, f) <==> ActiveRecord(db.records, f);
  }

  /** A deleted document keeps its row and its index record, marked as deleted, and no memberships. */
  lemma {:induction false} DocumentDeletionAsSent(db: Database, d: string)
    ensures var s, s' := db.sources, DeleteDocument(db, d).sources;
            if d in s.documents && !s.documents[d].deleted then
              && s'.documents == s.documents[d := s.documents[d].(deleted := true)] && s'.folders == s.folders
              && (d in s.documentIndex ==>
                    s'.documentIndex == s.documentIndex[d := s.documentIndex[d].(deleted := true)])
              && (d !in s.documentIndex ==> s'.documentIndex == s.documentIndex)
              && (forall m :: m in s'.relations <==>
                    m in s.relations && !(m.documentId == d && m.tenant == s.documents[d].tenant))
            else DeleteDocument(db, d) == db
  {
  }

  /** The deletion event names the touched folders, each once and in order. */
  lemma {:induction false} DeletionNamesTouched(db: Database, d: string) returns (ids: seq<string>)
    requires d in db.sources.documents
    ensures var row := db.sources.documents[d];
            && DeletionEvents(db, d) != []
            && DeletionEvents(db, d)[0] == DocumentDeleted(row.tenant, d, row.version, ids)
            && (forall x :: x in ids <==> DeletionTouches(db.sources, db.signals, row.tenant, d, x))
            && (forall i, j | 0 <= i < j < |ids| :: ids[i] != ids[j] && Text.Leq(ids[i], ids[j]))
  {
    var row := db.sources.documents[d];
    var touched := AffectedByDelete(db.sources, db.signals, row.tenant, d);
    ids := Text.Sorted(touched);
    Text.SortedIsDistinct(touched);
    Text.SortedIsOrdered(touched);
    forall x ensures x in ids <==> DeletionTouches(db.sources, db.signals, row.tenant, d, x) {
      assert x in ids <==> x in Text.Elements(ids);
      DeletionAffects(db.sources, db.signals, row.tenant, d, x);
    }
  }

  /** Invalidations come in the order of the folder ids. */
  lemma {:induction false} InvalidationsInOrder(s: Sources, records: Records, tenant: string, ids: seq<string>)
    requires forall i, j | 0 <= i < j < |ids| :: Text.Leq(ids[i], ids[j])
    ensures var events := InvalidationEvents(s, records, tenant, ids);
            && (forall e | e in events :: e.SignalsInvalidated? && e.tenant == tenant && e.folderId in ids)
            && (forall i, j | 0 <= i < j < |events| :: Text.Leq(events[i].folderId, events[j].folderId))
  {
    if ids != [] {
      var n := |ids| - 1;
      var before := InvalidationEvents(s, records, tenant, ids[..n]);
      InvalidationsInOrder(s, records, tenant, ids[..n]);
      forall e | e in before ensures e.folderId in ids && Text.Leq(e.folderId, ids[n]) {
        var k :| 0 <= k < n && ids[..n][k] == e.folderId;
        assert ids[k] == e.folderId;
      }
      OneMoreInOrder(before, InvalidationEvents(s, records, tenant, ids), ids[n]);
    }
  }

  lemma {:induction false} OneMoreInOrder(before: seq<Event>, events: seq<Event>, last: string)
    requires forall e | e in before :: e.SignalsInvalidated? && Text.Leq(e.folderId, last)
    requires forall i, j | 0 <= i < j < |before| :: Text.Leq(before[i].folderId, before[j].folderId)
    requires events == before || (|events| == |before| + 1 && events[..|before|] == before
                                  && events[|before|].SignalsInvalidated? && events[|before|].folderId == last)
    ensures forall e | e in events :: e.SignalsInvalidated?
    ensures forall i, j | 0 <= i < j < |events| :: Text.Leq(events[i].folderId, events[j].folderId)
  {
    if events != before {
      assert forall i | 0 <= i < |before| :: events[i] == before[i];
    }
  }
}
