/** Outbox events, their idempotency keys, and the append that does nothing on a key conflict. */
module Outbox {
  import opened Common
  import opened FolderDigests

  datatype Chunk = Chunk(index: nat, text: string)

  /** One version of a document as the source system sent it, with what was extracted from it. */
  datatype Snapshot = Snapshot(
    version: string, updatedAt: int, contentDigest: string, indexDigest: string, signalDigest: string,
    chunks: seq<Chunk>, details: string)

  datatype Event =
    | DocumentIndexed(tenant: string, documentId: string, snapshot: Snapshot)
    | DocumentDeleted(tenant: string, documentId: string, version: string, affectedFolderIds: seq<string>)
    | RelationsIndexed(tenant: string, documentId: string, version: string, folderIds: seq<string>)
    | FolderIndexed(tenant: string, folderId: string, folder: FolderSource)
    | FolderDeleted(tenant: string, folderId: string, version: string)
    | SignalsInvalidated(tenant: string, folderId: string, digest: Digest, generationVersion: string)

  /** A deletion has a key of its own; every other key is derived from the whole payload. */
  datatype Key =
    | DocumentDeleteKey(tenant: string, documentId: string, version: string)
    | FolderDeleteKey(tenant: string, folderId: string, version: string)
    | PayloadKey(event: Event)

  function KeyOf(e: Event): Key {
    match e
    case DocumentDeleted(tenant, d, version, _) => DocumentDeleteKey(tenant, d, version)
    case FolderDeleted(tenant, f, version) => FolderDeleteKey(tenant, f, version)
    case _ => PayloadKey(e)
  }

  predicate HasKey(log: seq<Event>, tenant: string, key: Key) {
    exists i | 0 <= i < |log| :: log[i].tenant == tenant && KeyOf(log[i]) == key
  }

  function AppendEvent(log: seq<Event>, e: Event): seq<Event> {
    if HasKey(log, e.tenant, KeyOf(e)) then log else log + [e]
  }

  function AppendAll(log: seq<Event>, events: seq<Event>): seq<Event>
    decreases |events|
  {
    if events == [] then log else AppendAll(AppendEvent(log, events[0]), events[1..])
  }

  // Appends that are lost

  /** What an event is about: events of one subject supersede each other. */
  datatype Subject =
    | DocumentContent(tenant: string, id: string)
    | DocumentFolders(tenant: string, id: string)
    | FolderItself(tenant: string, id: string)
    | FolderSignals(tenant: string, id: string)

  function SubjectOf(e: Event): Subject {
    match e
    case DocumentIndexed(tenant, d, _) => DocumentContent(tenant, d)
    case DocumentDeleted(tenant, d, _, _) => DocumentContent(tenant, d)
    case RelationsIndexed(tenant, d, _, _) => DocumentFolders(tenant, d)
    case FolderIndexed(tenant, f, _) => FolderItself(tenant, f)
    case FolderDeleted(tenant, f, _) => FolderItself(tenant, f)
    case SignalsInvalidated(tenant, f, _, _) => FolderSignals(tenant, f)
  }

  function LastAbout(log: seq<Event>, subject: Subject): Option<Event> {
    if log == [] then None
    else if SubjectOf(log[|log| - 1]) == subject then Some(log[|log| - 1])
    else LastAbout(log[..|log| - 1], subject)
  }

  /** The key holds all of the event; that of a document's deletion leaves out the affected folders. */
  predicate KeyedInFull(e: Event) {
    !e.DocumentDeleted?
  }

  /** Both delete the same version of the same document, or of the same folder. */
  predicate SameDeletion(a: Event, b: Event) {
    || (a.DocumentDeleted? && b.DocumentDeleted? && a.tenant == b.tenant && a.documentId == b.documentId
        && a.version == b.version)
    || (a.FolderDeleted? && b.FolderDeleted? && a.tenant == b.tenant && a.folderId == b.folderId
        && a.version == b.version)
  }

  /** A deletion is dropped exactly when the log has a deletion of that version. */
  lemma {:induction false} DeletionKeys(log: seq<Event>, e: Event)
    requires e.DocumentDeleted? || e.FolderDeleted?
    ensures HasKey(log, e.tenant, KeyOf(e)) <==> exists x | x in log :: SameDeletion(x, e)
    ensures AppendEvent(log, e) == if exists x | x in log :: SameDeletion(x, e) then log else log + [e]
  {
    if HasKey(log, e.tenant, KeyOf(e)) {
      var i :| 0 <= i < |log| && log[i].tenant == e.tenant && KeyOf(log[i]) == KeyOf(e);
      assert log[i] in log && SameDeletion(log[i], e);
    }
  }

  /** The log has the event already, and another one about the same subject since. */
  predicate Lost(log: seq<Event>, e: Event) {
    e in log && LastAbout(log, SubjectOf(e)) != Some(e)
  }

  /** What the log says about the event's subject after the append. */
  function LastUnlessLost(log: seq<Event>, e: Event): (last: Option<Event>)
    ensures last == Some(e) <==> !Lost(log, e)
  {
    if Lost(log, e) then LastAbout(log, SubjectOf(e)) else Some(e)
  }

  lemma {:induction false} FullKeys(log: seq<Event>, e: Event)
    ensures KeyedInFull(e) ==> (HasKey(log, e.tenant, KeyOf(e)) <==> e in log)
  {
  }

  lemma {:induction false} LastAboutMore(log: seq<Event>, e: Event, subject: Subject)
    ensures LastAbout(log + [e], subject) == if SubjectOf(e) == subject then Some(e) else LastAbout(log, subject)
  {
    assert (log + [e])[..|log|] == log;
  }

  /**
   An event whose key holds all of it is dropped when the log has it, and that matters when it is not the
   last about its subject: then, and only then, the log goes on saying what it said before.
   */
  lemma {:induction false} AppendSpeaksLast(log: seq<Event>, e: Event)
    requires KeyedInFull(e)
    ensures LastAbout(AppendEvent(log, e), SubjectOf(e)) == LastUnlessLost(log, e)
  {
    FullKeys(log, e);
    LastAboutMore(log, e, SubjectOf(e));
  }

  /** Events about other subjects leave alone what the log says about one. */
  lemma {:induction false} OthersSpeakNot(log: seq<Event>, events: seq<Event>, subject: Subject)
    requires forall e | e in events :: SubjectOf(e) != subject
    ensures LastAbout(AppendAll(log, events), subject) == LastAbout(log, subject)
    ensures forall e | SubjectOf(e) == subject :: e in AppendAll(log, events) <==> e in log
    decreases |events|
  {
    if events != [] {
      assert events[0] in events;
      LastAboutMore(log, events[0], subject);
      OthersSpeakNot(AppendEvent(log, events[0]), events[1..], subject);
    }
  }

  lemma {:induction false} AppendAllSplit(log: seq<Event>, first: seq<Event>, rest: seq<Event>)
    ensures AppendAll(log, first + rest) == AppendAll(AppendAll(log, first), rest)
    decreases |first|
  {
    if first == [] {
      assert first + rest == rest;
    } else {
      assert (first + rest)[1..] == first[1..] + rest;
      AppendAllSplit(AppendEvent(log, first[0]), first[1..], rest);
    }
  }

  /** The same for one event among others about other subjects. */
  lemma {:induction false} AppendAllSpeaksLast(log: seq<Event>, events: seq<Event>, i: nat)
    requires i < |events| && KeyedInFull(events[i])
    requires forall j | 0 <= j < |events| && j != i :: SubjectOf(events[j]) != SubjectOf(events[i])
    ensures LastAbout(AppendAll(log, events), SubjectOf(events[i])) == LastUnlessLost(log, events[i])
  {
    var e := events[i];
    var before, after := events[..i], events[i + 1..];
    assert events == before + ([e] + after);
    assert ([e] + after)[1..] == after && ([e] + after)[0] == e;
    forall x | x in before || x in after ensures SubjectOf(x) != SubjectOf(e) {
      if x in before {
        var j :| 0 <= j < |before| && before[j] == x;
        assert events[j] == x;
      } else {
        var j :| 0 <= j < |after| && after[j] == x;
        assert events[i + 1 + j] == x;
      }
    }
    AppendAllSplit(log, before, [e] + after);
    OthersSpeakNot(log, before, SubjectOf(e));
    AppendSpeaksLast(AppendAll(log, before), e);
    OthersSpeakNot(AppendEvent(AppendAll(log, before), e), after, SubjectOf(e));
  }

  /** The log gains events only, and those appended, of which a deletion may be dropped for another. */
  lemma {:induction false} AppendAllContents(log: seq<Event>, events: seq<Event>, e: Event)
    ensures e in log || (e in events && KeyedInFull(e)) ==> e in AppendAll(log, events)
    ensures e in AppendAll(log, events) ==> e in log || e in events
    decreases |events|
  {
    if events != [] {
      FullKeys(log, events[0]);
      AppendAllContents(AppendEvent(log, events[0]), events[1..], e);
    }
  }

  lemma {:induction false} LastIsInLog(log: seq<Event>, subject: Subject)
    ensures LastAbout(log, subject).Some? ==>
              LastAbout(log, subject).value in log && SubjectOf(LastAbout(log, subject).value) == subject
  {
    if log != [] && SubjectOf(log[|log| - 1]) != subject {
      LastIsInLog(log[..|log| - 1], subject);
    }
  }
}
