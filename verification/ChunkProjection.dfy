/**
 The path of a document from the indexing transaction to the chunk vector store: producers change
 the rows and append to the outbox in one step; one worker reads the log in order, at least once,
 and carries an event out in separate steps (freshness check, delete from the store, upsert into the
 store, ledger, commit). Producers may act, and the worker may crash, between any two of them.
 */
module ChunkProjection {
  import opened Common
  import opened Outbox

  datatype Doc = Doc(tenant: string, id: string)

  /** The source row of a document together with its index record. */
  datatype Row = Row(snapshot: Snapshot, deleted: bool)

  /** The chunk id of a point is derived from the document, its index digest and the chunk's position. */
  datatype PointId = PointId(doc: Doc, indexDigest: string, index: nat)

  datatype Point = Point(version: string, updatedAt: int, details: string, chunk: Chunk)

  /** How far the worker is with the event at its offset. */
  datatype Phase = Idle | Checked | StoreDeleted | StoreUpserted | Handled

  datatype State = State(
    rows: map<Doc, Row>, log: seq<Event>,
    offset: nat, phase: Phase,
    store: map<PointId, Point>, ledger: map<PointId, string>)

  datatype Step =
    | ProduceIndex(doc: Doc, snapshot: Snapshot, affected: seq<string>)
    | ProduceDelete(doc: Doc, affected: seq<string>)
    | ProduceOther(event: Event)
    | Check
    | DeleteFromStore
    | UpsertIntoStore
    | WriteLedger
    | Commit
    | Crash

  // Producers

  predicate Accepts(rows: map<Doc, Row>, doc: Doc, snapshot: Snapshot) {
    doc !in rows || rows[doc].snapshot.version == snapshot.version || rows[doc].snapshot.updatedAt < snapshot.updatedAt
  }

  predicate Active(rows: map<Doc, Row>, doc: Doc) {
    doc in rows && !rows[doc].deleted
  }

  /** The event of an accepted index command: a document without text is deleted instead. */
  function IndexEvent(doc: Doc, snapshot: Snapshot, affected: seq<string>): Event {
    if snapshot.chunks == [] then DocumentDeleted(doc.tenant, doc.id, snapshot.version, affected)
    else DocumentIndexed(doc.tenant, doc.id, snapshot)
  }

  /** The event a producer step appends, if the step changes anything. */
  function Produced(s: State, step: Step): Option<Event> {
    match step
    case ProduceIndex(doc, snapshot, affected) =>
      if Accepts(s.rows, doc, snapshot) then Some(IndexEvent(doc, snapshot, affected)) else None
    case ProduceDelete(doc, affected) =>
      if Active(s.rows, doc) then Some(DocumentDeleted(doc.tenant, doc.id, s.rows[doc].snapshot.version, affected))
      else None
    case ProduceOther(e) => if e.DocumentIndexed? || e.DocumentDeleted? then None else Some(e)
    case _ => None
  }

  function RowsAfter(s: State, step: Step): map<Doc, Row> {
    match step
    case ProduceIndex(doc, snapshot, _) =>
      if Accepts(s.rows, doc, snapshot) then s.rows[doc := Row(snapshot, snapshot.chunks == [])] else s.rows
    case ProduceDelete(doc, _) =>
      if Active(s.rows, doc) then s.rows[doc := s.rows[doc].(deleted := true)] else s.rows
    case _ => s.rows
  }

  // The worker

  predicate Fresh(rows: map<Doc, Row>, doc: Doc, indexDigest: string) {
    Active(rows, doc) && rows[doc].snapshot.indexDigest == indexDigest
  }

  function OthersOf<V>(points: map<PointId, V>, doc: Doc): map<PointId, V> {
    map p | p in points && p.doc != doc :: points[p]
  }

  function Of<V>(points: map<PointId, V>, doc: Doc): map<PointId, V> {
    map p | p in points && p.doc == doc :: points[p]
  }

  /** The points of the chunks of one snapshot. */
  function PointsOf(doc: Doc, snapshot: Snapshot, chunks: seq<Chunk>): map<PointId, Point>
    ensures forall p | p in PointsOf(doc, snapshot, chunks) :: p.doc == doc && p.indexDigest == snapshot.indexDigest
  {
    if chunks == [] then map[]
    else
      var last := chunks[|chunks| - 1];
      PointsOf(doc, snapshot, chunks[..|chunks| - 1])
        [PointId(doc, snapshot.indexDigest, last.index) :=
           Point(snapshot.version, snapshot.updatedAt, snapshot.details, last)]
  }

  predicate LastOfPosition(chunks: seq<Chunk>, i: nat)
    requires i < |chunks|
  {
    forall j | i < j < |chunks| :: chunks[j].index != chunks[i].index
  }

  /** The last chunk sent for a position is stored under that position. */
  lemma {:induction false} ChunkStays(doc: Doc, snapshot: Snapshot, chunks: seq<Chunk>, i: nat)
    requires i < |chunks| && LastOfPosition(chunks, i)
    ensures var p := PointId(doc, snapshot.indexDigest, chunks[i].index);
            && p in PointsOf(doc, snapshot, chunks)
            && PointsOf(doc, snapshot, chunks)[p]
               == Point(snapshot.version, snapshot.updatedAt, snapshot.details, chunks[i])
  {
    if i < |chunks| - 1 {
      var init := chunks[..|chunks| - 1];
      assert forall j | i < j < |init| :: init[j] == chunks[j];
      ChunkStays(doc, snapshot, init, i);
    }
  }

  /** Every point stored is at the position of some chunk. */
  lemma {:induction false} PointIsOfChunk(doc: Doc, snapshot: Snapshot, chunks: seq<Chunk>, p: PointId) returns (i: nat)
    requires p in PointsOf(doc, snapshot, chunks)
    ensures i < |chunks| && p == PointId(doc, snapshot.indexDigest, chunks[i].index)
  {
    var n := |chunks| - 1;
    if p == PointId(doc, snapshot.indexDigest, chunks[n].index) {
      i := n;
    } else {
      i := PointIsOfChunk(doc, snapshot, chunks[..n], p);
    }
  }

  /** What an event makes of its document in the chunk store. */
  function Projected(e: Event, doc: Doc): map<PointId, Point> {
    if e.DocumentIndexed? then PointsOf(doc, e.snapshot, e.snapshot.chunks) else map[]
  }

  function LedgerOf(points: map<PointId, Point>): map<PointId, string> {
    map p | p in points :: p.indexDigest
  }

  function DocOf(e: Event): Doc
    requires e.DocumentIndexed? || e.DocumentDeleted?
  {
    Doc(e.tenant, e.documentId)
  }

  predicate Concerns(e: Event, doc: Doc) {
    (e.DocumentIndexed? || e.DocumentDeleted?) && DocOf(e) == doc
  }

  predicate Enabled(s: State, step: Step) {
    match step
    case Check => s.phase == Idle && s.offset < |s.log|
    case DeleteFromStore => s.phase == Checked
    case UpsertIntoStore => s.phase == StoreDeleted
    case WriteLedger => s.phase == StoreUpserted
    case Commit => s.phase == Handled
    case _ => true
  }

  /** `project_document_chunks` checks freshness, `delete_document_chunks` does not; other events are skipped. */
  function AfterCheck(rows: map<Doc, Row>, e: Event): Phase {
    match e
    case DocumentIndexed(_, _, snapshot) => if Fresh(rows, DocOf(e), snapshot.indexDigest) then Checked else Handled
    case DocumentDeleted(_, _, _, _) => Checked
    case _ => Handled
  }

  function Take(s: State, step: Step): State
    requires Working(s) && Enabled(s, step)
  {
    match step
    case Check => s.(phase := AfterCheck(s.rows, s.log[s.offset]))
    case DeleteFromStore => s.(phase := StoreDeleted, store := OthersOf(s.store, DocOf(s.log[s.offset])))
    case UpsertIntoStore =>
      var e := s.log[s.offset];
      s.(phase := StoreUpserted, store := s.store + Projected(e, DocOf(e)))
    case WriteLedger =>
      var e := s.log[s.offset];
      s.(phase := Handled, ledger := OthersOf(s.ledger, DocOf(e)) + LedgerOf(Projected(e, DocOf(e))))
    case Commit => s.(phase := Idle, offset := s.offset + 1)
    case Crash => s.(phase := Idle)
    case _ =>
      var e := Produced(s, step);
      s.(rows := RowsAfter(s, step), log := if e.Some? then AppendEvent(s.log, e.value) else s.log)
  }

  /** The worker's offset is in the log, and it writes only for document events. */
  predicate Working(s: State) {
    && s.offset <= |s.log|
    && (s.phase != Idle ==> s.offset < |s.log|)
    && (s.phase in {Checked, StoreDeleted, StoreUpserted} ==>
          s.log[s.offset].DocumentIndexed? || s.log[s.offset].DocumentDeleted?)
  }

  // The log of one document

  function LastEvent(log: seq<Event>, doc: Doc): Option<Event> {
    if log == [] then None
    else if Concerns(log[|log| - 1], doc) then Some(log[|log| - 1])
    else LastEvent(log[..|log| - 1], doc)
  }

  /** No event about `doc` from position `i` on. */
  ghost predicate Quiet(log: seq<Event>, doc: Doc, i: nat) {
    forall k | i <= k < |log| :: !Concerns(log[k], doc)
  }

  lemma {:induction false} LastEventAt(log: seq<Event>, doc: Doc, i: nat)
    requires i < |log| && Concerns(log[i], doc) && Quiet(log, doc, i + 1)
    ensures LastEvent(log, doc) == Some(log[i])
  {
    if i < |log| - 1 {
      LastEventAt(log[..|log| - 1], doc, i);
    }
  }

  /** What the last event about a document says is what its row says. */
  ghost predicate SaysRow(last: Option<Event>, rows: map<Doc, Row>, doc: Doc) {
    match last
    case None => doc !in rows
    case Some(e) =>
      && doc in rows
      && match e
         case DocumentIndexed(_, _, snapshot) => rows[doc] == Row(snapshot, false)
         case DocumentDeleted(_, _, version, _) => rows[doc].deleted && rows[doc].snapshot.version == version
         case _ => false
  }

  ghost predicate Synced(s: State) {
    forall doc :: SaysRow(LastEvent(s.log, doc), s.rows, doc)
  }

  // The invariant of the worker

  ghost predicate InStore(s: State, doc: Doc, points: map<PointId, Point>) {
    Of(s.store, doc) == points
  }

  ghost predicate Settled(s: State, doc: Doc, points: map<PointId, Point>) {
    Of(s.store, doc) == points && Of(s.ledger, doc) == LedgerOf(points)
  }

  function ProjectedLast(last: Option<Event>, doc: Doc): map<PointId, Point> {
    if last.Some? then Projected(last.value, doc) else map[]
  }

  /** While the worker carries out the last event about `doc`, the store follows its phases. */
  ghost predicate Progress(s: State, doc: Doc, points: map<PointId, Point>) {
    && (s.phase == StoreDeleted ==> InStore(s, doc, map[]))
    && (s.phase == StoreUpserted ==> InStore(s, doc, points))
    && (s.phase == Handled ==> Settled(s, doc, points))
  }

  ghost predicate StoreFollows(s: State, doc: Doc) {
    && (Quiet(s.log, doc, s.offset) ==> Settled(s, doc, ProjectedLast(LastEvent(s.log, doc), doc)))
    && (s.phase != Idle && s.offset < |s.log| && Concerns(s.log[s.offset], doc) && Quiet(s.log, doc, s.offset + 1) ==>
          Progress(s, doc, Projected(s.log[s.offset], doc)))
  }

  ghost predicate Inv(s: State) {
    Working(s) && Synced(s) && forall doc :: StoreFollows(s, doc)
  }

  lemma {:induction false} OfOthers<V>(points: map<PointId, V>, mine: map<PointId, V>, doc: Doc)
    requires forall p | p in mine :: p.doc == doc
    ensures Of(OthersOf(points, doc), doc) == map[]
    ensures Of(OthersOf(points, doc) + mine, doc) == mine
    ensures Of(points, doc) == map[] ==> Of(points + mine, doc) == mine
  {
    assert Of(points, doc) == map[] ==> forall p | p in points :: p.doc == doc ==> p in Of(points, doc);
  }

  predicate ProducerStep(step: Step) {
    step.ProduceIndex? || step.ProduceDelete? || step.ProduceOther?
  }

  lemma {:induction false} WorkerStepKeeps(s: State, step: Step)
    requires Inv(s) && Enabled(s, step) && !ProducerStep(step)
    ensures Inv(Take(s, step))
  {
    var s' := Take(s, step);
    forall doc ensures StoreFollows(s', doc) {
      assert StoreFollows(s, doc);
      if StoreStep(step) {
        StoreStepKeeps(s, step, doc);
      } else if step == Check {
        CheckKeeps(s, doc);
      } else if step == Commit {
        CommitKeeps(s, doc);
      }
    }
  }

  predicate StoreStep(step: Step) {
    step == DeleteFromStore || step == UpsertIntoStore || step == WriteLedger
  }

  /** A worker step writes the points and rows of its own document only. */
  lemma {:induction false} StoreStepIsLocal(s: State, step: Step, doc: Doc)
    requires Working(s) && Enabled(s, step) && StoreStep(step) && doc != DocOf(s.log[s.offset])
    ensures Of(Take(s, step).store, doc) == Of(s.store, doc) && Of(Take(s, step).ledger, doc) == Of(s.ledger, doc)
  {
    var e := s.log[s.offset];
    var mine, wrote := DocOf(e), Projected(e, DocOf(e));
    if step == WriteLedger {
      KeptOutside(s.ledger, LedgerOf(wrote), mine, doc);
    } else if step == DeleteFromStore {
      KeptOutside(s.store, map[], mine, doc);
    } else {
      KeptOutside(s.store, wrote, mine, doc);
    }
  }

  lemma {:induction false} KeptOutside<V>(points: map<PointId, V>, wrote: map<PointId, V>, mine: Doc, other: Doc)
    requires other != mine && forall p | p in wrote :: p.doc == mine
    ensures Of(OthersOf(points, mine), other) == Of(points, other)
    ensures Of(points + wrote, other) == Of(points, other)
    ensures Of(OthersOf(points, mine) + wrote, other) == Of(points, other)
  {
  }

  lemma {:induction false} StoreStepAdvances(s: State, step: Step)
    requires Working(s) && Enabled(s, step) && StoreStep(step)
    requires Progress(s, DocOf(s.log[s.offset]), Projected(s.log[s.offset], DocOf(s.log[s.offset])))
    ensures Progress(Take(s, step), DocOf(s.log[s.offset]), Projected(s.log[s.offset], DocOf(s.log[s.offset])))
  {
    var e := s.log[s.offset];
    OfOthers(s.ledger, LedgerOf(Projected(e, DocOf(e))), DocOf(e));
    OfOthers(s.store, Projected(e, DocOf(e)), DocOf(e));
  }

  lemma {:induction false} StoreStepKeeps(s: State, step: Step, doc: Doc)
    requires Inv(s) && Enabled(s, step) && StoreStep(step)
    ensures StoreFollows(Take(s, step), doc)
  {
    assert StoreFollows(s, doc);
    if doc != DocOf(s.log[s.offset]) {
      StoreStepIsLocal(s, step, doc);
    } else if Quiet(s.log, doc, s.offset + 1) {
      StoreStepAdvances(s, step);
    } else {
      assert !Quiet(s.log, doc, s.offset);
    }
  }

  /** The last event about a document is fresh when it is checked, because the rows still say the same. */
  lemma {:induction false} CheckKeeps(s: State, doc: Doc)
    requires Inv(s) && Enabled(s, Check)
    ensures StoreFollows(Take(s, Check), doc)
  {
    assert StoreFollows(s, doc);
    var e := s.log[s.offset];
    if Concerns(e, doc) && Quiet(s.log, doc, s.offset + 1) {
      LastEventAt(s.log, doc, s.offset);
      assert SaysRow(LastEvent(s.log, doc), s.rows, doc);
    }
  }

  lemma {:induction false} CommitKeeps(s: State, doc: Doc)
    requires Inv(s) && Enabled(s, Commit)
    ensures StoreFollows(Take(s, Commit), doc)
  {
    assert StoreFollows(s, doc);
    if Quiet(s.log, doc, s.offset + 1) {
      if Concerns(s.log[s.offset], doc) {
        LastEventAt(s.log, doc, s.offset);
      } else {
        assert Quiet(s.log, doc, s.offset);
      }
    }
  }

  /** A producer never disturbs the worker's invariant, as long as the log goes on saying what the rows say. */
  lemma {:induction false} ProducerStepKeeps(s: State, step: Step)
    requires Inv(s) && ProducerStep(step) && Synced(Take(s, step))
    ensures Inv(Take(s, step))
  {
    var s' := Take(s, step);
    forall doc ensures StoreFollows(s', doc) {
      assert StoreFollows(s, doc);
      if s'.log != s.log {
        var e := s'.log[|s.log|];
        assert s'.log == s.log + [e];
        assert s'.log[..|s.log|] == s.log;
        assert Quiet(s'.log, doc, s.offset) ==> Quiet(s.log, doc, s.offset) && !Concerns(e, doc);
        assert Quiet(s'.log, doc, s.offset + 1) && s.offset < |s.log| ==> Quiet(s.log, doc, s.offset + 1);
      }
    }
  }

  /**
   An index event whose text is no longer the current one is passed over: from its check to its commit,
   store and ledger stay as they are. Any other document event is carried out.
   */
  lemma {:induction false} OutdatedEventIsSkipped(s: State)
    requires Working(s) && Enabled(s, Check)
    ensures var e, checked := s.log[s.offset], Take(s, Check);
            && checked == s.(phase := checked.phase)
            && (e.DocumentIndexed? ==>
                  var doc := Doc(e.tenant, e.documentId);
                  var current := doc in s.rows && !s.rows[doc].deleted
                                 && s.rows[doc].snapshot.indexDigest == e.snapshot.indexDigest;
                  if current then Enabled(checked, DeleteFromStore)
                  else Enabled(checked, Commit) && Take(checked, Commit) == s.(offset := s.offset + 1))
            && (e.DocumentDeleted? ==> Enabled(checked, DeleteFromStore))
            && (!e.DocumentIndexed? && !e.DocumentDeleted? ==> Take(checked, Commit) == s.(offset := s.offset + 1))
  {
  }

  // Convergence

  /** What the chunk store should hold for a document: its current chunks, or nothing once it is deleted. */
  function CurrentPoints(rows: map<Doc, Row>, doc: Doc): map<PointId, Point> {
    if Active(rows, doc) then PointsOf(doc, rows[doc].snapshot, rows[doc].snapshot.chunks) else map[]
  }

  /**
   Once the worker has handled every event about a document, the chunk store holds exactly the chunks
   of the last accepted index command, or none if the document was deleted, and the ledger lists them.
   */
  lemma {:induction false} HandledLogConverges(s: State, doc: Doc)
    requires Inv(s) && Quiet(s.log, doc, s.offset)
    ensures Settled(s, doc, CurrentPoints(s.rows, doc))
  {
    assert StoreFollows(s, doc);
    assert SaysRow(LastEvent(s.log, doc), s.rows, doc);
    LastEventConcerns(s.log, doc);
  }

  lemma {:induction false} LastEventConcerns(log: seq<Event>, doc: Doc)
    ensures LastEvent(log, doc).Some? ==> Concerns(LastEvent(log, doc).value, doc)
  {
    if log != [] && !Concerns(log[|log| - 1], doc) {
      LastEventConcerns(log[..|log| - 1], doc);
    }
  }

  /** The append of this step, if it makes one, meets no event with the same idempotency key. */
  ghost predicate NotDropped(s: State, step: Step) {
    Produced(s, step).Some? ==> !HasKey(s.log, Produced(s, step).value.tenant, KeyOf(Produced(s, step).value))
  }

  lemma {:induction false} AppendedSaysRow(s: State, step: Step)
    requires Working(s) && Synced(s) && ProducerStep(step) && NotDropped(s, step)
    ensures Synced(Take(s, step))
  {
    var s' := Take(s, step);
    forall doc ensures SaysRow(LastEvent(s'.log, doc), s'.rows, doc) {
      assert SaysRow(LastEvent(s.log, doc), s.rows, doc);
      if Produced(s, step).Some? {
        assert s'.log == s.log + [Produced(s, step).value];
        assert s'.log[..|s.log|] == s.log;
      }
    }
  }

  const START := State(map[], [], 0, Idle, map[], map[])

  lemma {:induction false} StartInv()
    ensures Inv(START)
  {
    assert forall doc :: Of(START.store, doc) == map[] && Of(START.ledger, doc) == map[];
    assert forall doc :: LastEvent(START.log, doc) == None;
    assert LedgerOf(map[]) == map[];
  }

  /** `states` is a run: it starts in the empty system, and each state follows from the one before. */
  ghost predicate IsRun(states: seq<State>, steps: seq<Step>) {
    && |states| == |steps| + 1
    && states[0] == START
    && forall i | 0 <= i < |steps| ::
         Working(states[i]) && Enabled(states[i], steps[i]) && states[i + 1] == Take(states[i], steps[i])
  }

  /** In every run in which no append is dropped, every state keeps the invariant, and so converges. */
  lemma {:induction false} RunConverges(states: seq<State>, steps: seq<Step>, i: nat, doc: Doc)
    requires IsRun(states, steps) && i < |states|
    requires forall k | 0 <= k < |steps| :: NotDropped(states[k], steps[k])
    ensures Inv(states[i])
    ensures Quiet(states[i].log, doc, states[i].offset) ==>
              Settled(states[i], doc, CurrentPoints(states[i].rows, doc))
  {
    if i == 0 {
      StartInv();
    } else {
      RunConverges(states, steps, i - 1, doc);
      if ProducerStep(steps[i - 1]) {
        AppendedSaysRow(states[i - 1], steps[i - 1]);
        ProducerStepKeeps(states[i - 1], steps[i - 1]);
      } else {
        WorkerStepKeeps(states[i - 1], steps[i - 1]);
      }
    }
    if Quiet(states[i].log, doc, states[i].offset) {
      HandledLogConverges(states[i], doc);
    }
  }

  // What the idempotency key may drop

  /** A source version determines its snapshot, timestamp and extraction: `versions` says which. */
  ghost predicate Deterministic(versions: (Doc, string) -> Snapshot, step: Step) {
    step.ProduceIndex? ==> versions(step.doc, step.snapshot.version) == step.snapshot
  }

  /** The command sends a version with text again after that very version was deleted. */
  predicate ResentAfterDeletion(s: State, step: Step) {
    && step.ProduceIndex? && step.snapshot.chunks != [] && step.doc in s.rows
    && s.rows[step.doc].deleted && s.rows[step.doc].snapshot.version == step.snapshot.version
  }

  /** An accepted version is no newer than the row, and equally new only if it is the row's version. */
  ghost predicate NotAhead(rows: map<Doc, Row>, doc: Doc, snapshot: Snapshot) {
    && doc in rows
    && snapshot.updatedAt <= rows[doc].snapshot.updatedAt
    && (snapshot.updatedAt == rows[doc].snapshot.updatedAt ==> snapshot.version == rows[doc].snapshot.version)
  }

  ghost predicate LoggedEvent(versions: (Doc, string) -> Snapshot, rows: map<Doc, Row>, e: Event) {
    match e
    case DocumentIndexed(_, _, snapshot) =>
      && versions(DocOf(e), snapshot.version) == snapshot && snapshot.chunks != []
      && NotAhead(rows, DocOf(e), snapshot)
    case DocumentDeleted(_, _, version, _) =>
      && NotAhead(rows, DocOf(e), versions(DocOf(e), version))
      && versions(DocOf(e), version).version == version
      && (Active(rows, DocOf(e)) ==> rows[DocOf(e)].snapshot.version != version)
    case _ => true
  }

  ghost predicate History(versions: (Doc, string) -> Snapshot, s: State) {
    && (forall i | 0 <= i < |s.log| :: LoggedEvent(versions, s.rows, s.log[i]))
    && (forall doc | doc in s.rows ::
          && versions(doc, s.rows[doc].snapshot.version) == s.rows[doc].snapshot
          && (s.rows[doc].snapshot.chunks != [] ==>
                DocumentIndexed(doc.tenant, doc.id, s.rows[doc].snapshot) in s.log)
          && (Active(s.rows, doc) ==> s.rows[doc].snapshot.chunks != []))
  }

  /** A version that was superseded can never become current again. */
  lemma {:induction false} SupersededNeverReturns(versions: (Doc, string) -> Snapshot, s: State, snapshot: Snapshot,
                                                  doc: Doc)
    requires History(versions, s)
    requires DocumentIndexed(doc.tenant, doc.id, snapshot) in s.log
    requires s.rows[doc].snapshot.version != snapshot.version
    ensures !Accepts(s.rows, doc, snapshot)
  {
    var i :| 0 <= i < |s.log| && s.log[i] == DocumentIndexed(doc.tenant, doc.id, snapshot);
    assert LoggedEvent(versions, s.rows, s.log[i]);
  }

  /**
   An append is dropped only if the last index or delete event about that document has the same key,
   that is, says the same already; the append of a deletion command is never dropped.
   */
  lemma {:induction false} DroppedOnlyIfRepeated(versions: (Doc, string) -> Snapshot, s: State, step: Step)
    requires Working(s) && Synced(s) && History(versions, s) && Deterministic(versions, step)
    requires !ResentAfterDeletion(s, step) && (step.ProduceIndex? || step.ProduceDelete?)
    requires !NotDropped(s, step)
    ensures step.ProduceIndex? && LastEvent(s.log, step.doc).Some?
            && KeyOf(LastEvent(s.log, step.doc).value) == KeyOf(Produced(s, step).value)
  {
    var e := Produced(s, step).value;
    var i :| 0 <= i < |s.log| && s.log[i].tenant == e.tenant && KeyOf(s.log[i]) == KeyOf(e);
    assert LoggedEvent(versions, s.rows, s.log[i]);
    assert SaysRow(LastEvent(s.log, step.doc), s.rows, step.doc);
    LastEventConcerns(s.log, step.doc);
  }

  lemma {:induction false} HistoryKept(versions: (Doc, string) -> Snapshot, s: State, step: Step)
    requires Working(s) && History(versions, s) && Deterministic(versions, step) && ProducerStep(step)
    requires !ResentAfterDeletion(s, step)
    ensures History(versions, Take(s, step))
  {
    var s' := Take(s, step);
    forall i | 0 <= i < |s'.log| ensures LoggedEvent(versions, s'.rows, s'.log[i]) {
      if i < |s.log| {
        assert s'.log[i] == s.log[i];
        assert LoggedEvent(versions, s.rows, s.log[i]);
      }
    }
    RowsLogged(versions, s, step);
  }

  lemma {:induction false} RowsLogged(versions: (Doc, string) -> Snapshot, s: State, step: Step)
    requires Working(s) && History(versions, s) && Deterministic(versions, step) && ProducerStep(step)
    ensures forall doc | doc in Take(s, step).rows && Take(s, step).rows[doc].snapshot.chunks != [] ::
              DocumentIndexed(doc.tenant, doc.id, Take(s, step).rows[doc].snapshot) in Take(s, step).log
  {
    var s' := Take(s, step);
    assert forall e | e in s.log :: e in s'.log;
    if step.ProduceIndex? && Accepts(s.rows, step.doc, step.snapshot) && step.snapshot.chunks != [] {
      var e := DocumentIndexed(step.doc.tenant, step.doc.id, step.snapshot);
      if HasKey(s.log, e.tenant, KeyOf(e)) {
        var i :| 0 <= i < |s.log| && s.log[i].tenant == e.tenant && KeyOf(s.log[i]) == KeyOf(e);
        assert s.log[i] == e;
      } else {
        assert s'.log == s.log + [e];
      }
    }
  }

  /**
   When versions determine their snapshots, an append that is dropped on a key conflict does no harm,
   with one exception: the log goes on saying what the rows say exactly when the command does not
   send a version with text again after its own deletion.
   */
  lemma {:induction false} SyncedUnlessResent(versions: (Doc, string) -> Snapshot, s: State, step: Step)
    requires Working(s) && Synced(s) && History(versions, s) && Deterministic(versions, step) && ProducerStep(step)
    ensures Synced(Take(s, step)) <==> !ResentAfterDeletion(s, step)
  {
    var s' := Take(s, step);
    if ResentAfterDeletion(s, step) {
      var e := Produced(s, step).value;
      var i :| 0 <= i < |s.log| && s.log[i] == e;
      assert HasKey(s.log, e.tenant, KeyOf(e));
      assert SaysRow(LastEvent(s.log, step.doc), s.rows, step.doc);
      assert !SaysRow(LastEvent(s'.log, step.doc), s'.rows, step.doc);
    } else if NotDropped(s, step) {
      AppendedSaysRow(s, step);
    } else {
      forall doc ensures SaysRow(LastEvent(s'.log, doc), s'.rows, doc) {
        assert SaysRow(LastEvent(s.log, doc), s.rows, doc);
        LastEventConcerns(s.log, doc);
        if !step.ProduceOther? {
          DroppedOnlyIfRepeated(versions, s, step);
        }
      }
    }
  }

  ghost function TakeAll(s: State, steps: seq<Step>): Option<State>
    decreases |steps|
  {
    if steps == [] then Some(s)
    else if Working(s) && Enabled(s, steps[0]) then TakeAll(Take(s, steps[0]), steps[1..])
    else None
  }

  /** Index, delete, index the same version again: the worker handles the whole log, the store stays empty. */
  lemma {:induction false} ResentVersionIsLost(doc: Doc, snapshot: Snapshot) returns (s: State)
    requires |snapshot.chunks| == 1
    ensures var handle := [Check, DeleteFromStore, UpsertIntoStore, WriteLedger, Commit];
            var produce := [ProduceIndex(doc, snapshot, []), ProduceDelete(doc, []), ProduceIndex(doc, snapshot, [])];
            exists produced, half :: TakeAll(START, produce) == Some(produced)
              && TakeAll(produced, handle) == Some(half) && TakeAll(half, handle) == Some(s)
    ensures s.offset == |s.log| && s.phase == Idle && Active(s.rows, doc)
    ensures Of(s.store, doc) == map[] && CurrentPoints(s.rows, doc) != map[]
  {
    var handle := [Check, DeleteFromStore, UpsertIntoStore, WriteLedger, Commit];
    var indexed := DocumentIndexed(doc.tenant, doc.id, snapshot);
    var deleted := DocumentDeleted(doc.tenant, doc.id, snapshot.version, []);
    var s1 := Take(START, ProduceIndex(doc, snapshot, []));
    assert s1.log == [indexed];
    var s2 := Take(s1, ProduceDelete(doc, []));
    assert s2.log == [indexed, deleted];
    var produced := Take(s2, ProduceIndex(doc, snapshot, []));
    assert s2.log[0] == indexed;
    assert produced.log == s2.log;
    TakeThree(START, ProduceIndex(doc, snapshot, []), ProduceDelete(doc, []), ProduceIndex(doc, snapshot, []));
    var half := HandleEvent(produced);
    s := HandleEvent(half);
    OfOthers(half.store, map[], doc);
    var id := PointId(doc, snapshot.indexDigest, snapshot.chunks[0].index);
    assert id in CurrentPoints(s.rows, doc);
  }

  lemma {:induction false} TakeThree(s: State, a: Step, b: Step, c: Step)
    requires Working(s) && Enabled(s, a) && Working(Take(s, a)) && Enabled(Take(s, a), b)
    requires Working(Take(Take(s, a), b)) && Enabled(Take(Take(s, a), b), c)
    ensures TakeAll(s, [a, b, c]) == Some(Take(Take(Take(s, a), b), c))
  {
    assert [a, b, c][1..] == [b, c] && [b, c][1..] == [c] && [c][1..] == [];
    assert TakeAll(Take(Take(s, a), b), [c]) == Some(Take(Take(Take(s, a), b), c));
  }

  lemma {:induction false} HandleEvent(s: State) returns (s': State)
    requires Working(s) && s.phase == Idle && s.offset < |s.log|
    requires AfterCheck(s.rows, s.log[s.offset]) == Checked
    ensures TakeAll(s, [Check, DeleteFromStore, UpsertIntoStore, WriteLedger, Commit]) == Some(s')
    ensures var e := s.log[s.offset];
            var mine := Projected(e, DocOf(e));
            s' == s.(offset := s.offset + 1, store := OthersOf(s.store, DocOf(e)) + mine,
                     ledger := OthersOf(s.ledger, DocOf(e)) + LedgerOf(mine))
  {
    var c := Take(s, Check);
    var u := Take(Take(c, DeleteFromStore), UpsertIntoStore);
    s' := Take(Take(u, WriteLedger), Commit);
    var steps := [Check, DeleteFromStore, UpsertIntoStore, WriteLedger, Commit];
    assert steps[1..][0] == DeleteFromStore && steps[1..][1..] == [UpsertIntoStore, WriteLedger, Commit];
    TakeThree(Take(c, DeleteFromStore), UpsertIntoStore, WriteLedger, Commit);
  }

  /**
   In every run in which versions determine their snapshots and no version with text is sent again
   after its own deletion, dropped appends or not, every handled document has converged.
   */
  lemma {:induction false} RunConvergesWithDrops(versions: (Doc, string) -> Snapshot, states: seq<State>,
                                                 steps: seq<Step>, i: nat, doc: Doc)
    requires IsRun(states, steps) && i < |states|
    requires forall k | 0 <= k < |steps| ::
               Deterministic(versions, steps[k]) && !ResentAfterDeletion(states[k], steps[k])
    ensures Inv(states[i]) && History(versions, states[i])
    ensures Quiet(states[i].log, doc, states[i].offset) ==>
              Settled(states[i], doc, CurrentPoints(states[i].rows, doc))
  {
    if i == 0 {
      StartInv();
    } else {
      RunConvergesWithDrops(versions, states, steps, i - 1, doc);
      if ProducerStep(steps[i - 1]) {
        SyncedUnlessResent(versions, states[i - 1], steps[i - 1]);
        HistoryKept(versions, states[i - 1], steps[i - 1]);
        ProducerStepKeeps(states[i - 1], steps[i - 1]);
      } else {
        WorkerStepKeeps(states[i - 1], steps[i - 1]);
      }
    }
    if Quiet(states[i].log, doc, states[i].offset) {
      HandledLogConverges(states[i], doc);
    }
  }
}
