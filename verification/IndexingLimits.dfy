/**
 Where the conditions on stored folder signals are needed: runs from the empty database in which a
 command that the repository accepts breaks one of the invariants.
 */
module IndexingLimits {
  import opened Common
  import opened FolderGraph
  import opened FolderDigests
  import opened IndexingSteps
  import opened Outbox

  lemma {:induction false} RunMore(db: Database, commands: seq<Command>, c: Command)
    ensures Run(db, commands + [c]) == Apply(Run(db, commands), c)
    decreases |commands|
  {
    if commands == [] {
      assert [c][1..] == [];
    } else {
      assert (commands + [c])[1..] == commands[1..] + [c];
      RunMore(Apply(db, commands[0]), commands[1..], c);
    }
  }

  lemma {:induction false} ThroughoutMore(db: Database, commands: seq<Command>, c: Command,
                                          allowed: (Database, Command) -> bool)
    requires Throughout(db, commands, allowed) && allowed(Run(db, commands), c)
    ensures Throughout(db, commands + [c], allowed)
    decreases |commands|
  {
    if commands == [] {
      assert [c][1..] == [];
    } else {
      assert (commands + [c])[1..] == commands[1..] + [c];
      ThroughoutMore(Apply(db, commands[0]), commands[1..], c, allowed);
    }
  }

  /** A run whose state is known, extended by one command. */
  lemma {:induction false} Extend(commands: seq<Command>, c: Command)
    requires Throughout(EMPTY, commands, Sound)
    ensures Run(EMPTY, commands + [c]) == Apply(Run(EMPTY, commands), c)
    ensures Sound(Run(EMPTY, commands), c) ==> Throughout(EMPTY, commands + [c], Sound)
  {
    RunMore(EMPTY, commands, c);
    if Sound(Run(EMPTY, commands), c) {
      ThroughoutMore(EMPTY, commands, c, Sound);
    }
  }

  /** After indexing one active folder, it is active with an active record. */
  lemma {:induction false} OneFolder(f: string, row: FolderSource) returns (commands: seq<Command>)
    requires !row.deleted
    ensures commands == [IndexFolderCommand(f, row)] && Throughout(EMPTY, commands, Sound)
    ensures var db := Run(EMPTY, commands);
            && Consistent(db) && DigestsCurrent(db) && db.sources.documents == map[] && db.signals == {}
            && db.sources.folders == map[f := row] && ActiveRecord(db.records, f)
            && GenerationVersion(db.records, f) == DEFAULT_GENERATION_VERSION
  {
    commands := [IndexFolderCommand(f, row)];
    assert [] + commands == commands;
    Extend([], commands[0]);
    ReachableStatesAreCurrent(commands);
    var db := Run(EMPTY, commands);
    assert ActiveFolder(db.sources, f);
    assert Throughout(EMPTY, commands, KeepsGenerationVersion);
  }

  /** Storing the signals of one folder under a new generation version leaves its digest stale. */
  lemma {:induction false} NewVersionLeavesDigestStale(f: string, row: FolderSource, version: string)
    returns (commands: seq<Command>)
    requires !row.deleted && HasText(version) && version != DEFAULT_GENERATION_VERSION
    ensures Throughout(EMPTY, commands, Sound)
    ensures Consistent(Run(EMPTY, commands)) && !DigestsCurrent(Run(EMPTY, commands))
  {
    var start := OneFolder(f, row);
    var db := Run(EMPTY, start);
    var c := ReplaceFolderSignalsCommand(row.tenant, f, [], db.records[f].signalDigest, version);
    Extend(start, c);
    ApplyKeeps(db, c);
    assert StoresSignals(db, c);
    commands := start + [c];
  }

  /** A second folder is pending once it is indexed. */
  lemma {:induction false} OneMoreFolder(db: Database, f: string, row: FolderSource)
    requires Consistent(db) && !row.deleted && f !in db.sources.folders
    ensures Sound(db, IndexFolderCommand(f, row))
    ensures var db' := Apply(db, IndexFolderCommand(f, row));
            && db'.sources.folders == db.sources.folders[f := row] && db'.signals <= db.signals && Consistent(db')
            && f in db'.records && db'.records[f].status == Pending
  {
    IndexFolderKeeps(db, f, row);
  }

  lemma {:induction false} TwoFolders(f: string, row: FolderSource, g: string, other: FolderSource)
    returns (commands: seq<Command>)
    requires f != g && !row.deleted && !other.deleted
    ensures Throughout(EMPTY, commands, Sound)
    ensures var db := Run(EMPTY, commands);
            && Consistent(db) && db.signals == {} && db.sources.folders == map[f := row, g := other]
            && g in db.records && db.records[g].status == Pending
  {
    var first := OneFolder(f, row);
    OneMoreFolder(Run(EMPTY, first), g, other);
    Extend(first, IndexFolderCommand(g, other));
    commands := first + [IndexFolderCommand(g, other)];
    assert map[f := row][g := other] == map[f := row, g := other];
  }

  function ForeignRow(db: Database, f: string, row: FolderSource, signal: FolderSignalRow): Command
    requires f in db.records
  {
    ReplaceFolderSignalsCommand(row.tenant, f, [signal], db.records[f].signalDigest, DEFAULT_GENERATION_VERSION)
  }

  lemma {:induction false} StoreForeign(start: seq<Command>, f: string, row: FolderSource, signal: FolderSignalRow)
    requires var db := Run(EMPTY, start);
             && Throughout(EMPTY, start, Sound) && Consistent(db) && db.signals == {}
             && f in db.sources.folders && db.sources.folders[f] == row && !row.deleted
             && signal.folderId in db.sources.folders && signal.folderId != f
             && signal.folderId in db.records && db.records[signal.folderId].status == Pending
    requires signal.relatedDocumentId == None && HasText(signal.signalId)
    ensures var db := Run(EMPTY, start);
            && f in db.records && Throughout(EMPTY, start + [ForeignRow(db, f, row, signal)], Admissible)
            && signal in Run(EMPTY, start + [ForeignRow(db, f, row, signal)]).signals
            && !Consistent(Run(EMPTY, start + [ForeignRow(db, f, row, signal)]))
  {
    var db := Run(EMPTY, start);
    assert ActiveFolder(db.sources, f) && ActiveRecord(db.records, f);
    var c := ForeignRow(db, f, row, signal);
    RunMore(EMPTY, start, c);
    SoundIsAdmissible(EMPTY, start);
    ThroughoutMore(EMPTY, start, c, Admissible);
    assert DEFAULT_GENERATION_VERSION[0] != ' ';
    assert StoresSignals(db, c) && signal in c.rows;
    ApplyKeeps(db, c);
  }

  lemma {:induction false} SoundIsAdmissible(db: Database, commands: seq<Command>)
    requires Throughout(db, commands, Sound)
    ensures Throughout(db, commands, Admissible)
    decreases |commands|
  {
    if commands != [] {
      SoundIsAdmissible(Apply(db, commands[0]), commands[1..]);
    }
  }

  /** A row of another folder is stored although that folder is not ready. */
  lemma {:induction false} ForeignRowIsStored(f: string, row: FolderSource, g: string, other: FolderSource,
                                              signal: FolderSignalRow) returns (commands: seq<Command>)
    requires f != g && !row.deleted && !other.deleted
    requires signal.folderId == g && signal.relatedDocumentId == None && HasText(signal.signalId)
    ensures Throughout(EMPTY, commands, Admissible)
    ensures signal in Run(EMPTY, commands).signals && !Consistent(Run(EMPTY, commands))
  {
    var start := TwoFolders(f, row, g, other);
    StoreForeign(start, f, row, signal);
    commands := start + [ForeignRow(Run(EMPTY, start), f, row, signal)];
  }

  function SignalAbout(db: Database, f: string, d: string, id: string): FolderSignalRow
    requires f in db.records
  {
    FolderSignalRow(id, f, db.records[f].signalDigest, Some(d))
  }

  function StoreAbout(db: Database, f: string, d: string, id: string): Command
    requires f in db.records && f in db.sources.folders
  {
    ReplaceFolderSignalsCommand(db.sources.folders[f].tenant, f, [SignalAbout(db, f, d, id)],
                                db.records[f].signalDigest, DEFAULT_GENERATION_VERSION)
  }

  /** A signal under the current digest is stored whether or not the document it is about is deleted. */
  lemma {:induction false} DeletedRelationIsAccepted(db: Database, f: string, d: string, id: string)
    requires Consistent(db) && ActiveFolder(db.sources, f)
    requires HasText(id) && forall row | row in db.signals :: row.signalId != id
    requires d in db.sources.documents && db.sources.documents[d].deleted
    requires db.sources.documents[d].tenant == db.sources.folders[f].tenant
    ensures f in db.records && Sound(db, StoreAbout(db, f, d, id))
    ensures var after := Apply(db, StoreAbout(db, f, d, id));
            SignalAbout(db, f, d, id) in after.signals && Consistent(after) && !RelatedActive(after)
  {
    assert ActiveRecord(db.records, f);
    var c := StoreAbout(db, f, d, id);
    assert DEFAULT_GENERATION_VERSION[0] != ' ';
    assert SignalAbout(db, f, d, id) in c.rows;
    ApplyKeeps(db, c);
    assert !AboutActive(Apply(db, c).sources, SignalAbout(db, f, d, id));
  }

  lemma {:induction false} OneDeletedDocument(f: string, row: FolderSource, d: string, snapshot: Snapshot)
    returns (commands: seq<Command>)
    requires !row.deleted && snapshot.chunks != []
    ensures Throughout(EMPTY, commands, Sound)
    ensures var db := Run(EMPTY, commands);
            && db.sources.folders == map[f := row] && d in db.sources.documents
            && db.sources.documents[d].deleted && db.sources.documents[d].tenant == row.tenant && db.signals == {}
  {
    var start := OneFolder(f, row);
    var index := IndexDocumentCommand(row.tenant, d, snapshot, Some([f]));
    Extend(start, index);
    var indexed := start + [index];
    DocumentIsIndexed(Run(EMPTY, start), row.tenant, d, snapshot, Some([f]));
    Extend(indexed, DeleteDocumentCommand(d));
    DocumentIsDeleted(Run(EMPTY, indexed), d);
    commands := indexed + [DeleteDocumentCommand(d)];
  }

  lemma {:induction false} DocumentIsIndexed(db: Database, tenant: string, d: string, snapshot: Snapshot,
                                             folderIds: Option<seq<string>>)
    requires snapshot.chunks != [] && d !in db.sources.documents
    ensures var after := IndexDocument(db, tenant, d, snapshot, folderIds).sources;
            && after.folders == db.sources.folders && d in after.documents
            && after.documents[d] == DocumentRow(tenant, snapshot)
  {
  }

  lemma {:induction false} DocumentIsDeleted(db: Database, d: string)
    requires d in db.sources.documents && !db.sources.documents[d].deleted
    ensures var after := DeleteDocument(db, d).sources;
            && after.folders == db.sources.folders && d in after.documents && after.documents[d].deleted
            && after.documents[d].tenant == db.sources.documents[d].tenant
  {
  }

  /**
   Index a folder and a document of it, delete the document, and store a signal about it under the
   folder's current digest: the signal is accepted, and is about a deleted document from then on.
   */
  lemma {:induction false} SignalAboutDeletedIsStored(f: string, row: FolderSource, d: string, snapshot: Snapshot,
                                                      id: string) returns (commands: seq<Command>)
    requires !row.deleted && snapshot.chunks != [] && HasText(id)
    ensures Throughout(EMPTY, commands, Sound)
    ensures Consistent(Run(EMPTY, commands)) && !RelatedActive(Run(EMPTY, commands))
  {
    var start := OneDeletedDocument(f, row, d, snapshot);
    var db := Run(EMPTY, start);
    ReachableStatesAreCurrent(start);
    DeletedRelationIsAccepted(db, f, d, id);
    Extend(start, StoreAbout(db, f, d, id));
    commands := start + [StoreAbout(db, f, d, id)];
  }
}
