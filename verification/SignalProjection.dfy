/**
 The signal vectors of documents and folders in one shared collection, and the ledger that lists
 them. Each operation writes the vector store first and the ledger afterwards.
 */
module SignalProjection {
  import opened Common

  datatype OwnerKind = DocumentOwner | FolderOwner

  /** The document or folder that signals belong to. */
  datatype Owner = Owner(kind: OwnerKind, tenant: string, id: string)

  datatype Signal = Signal(
    tenant: string, ownerId: string, signalId: string, sourceDigest: string, vectorDigest: string, payload: string)

  /** The point id is derived from these parts. */
  datatype PointId = PointId(owner: Owner, signalId: string, vectorDigest: string)

  datatype ItemKind = DocumentItem | ChunkItem | SignalItem | FolderItem

  datatype LedgerKey = LedgerKey(source: Owner, itemKind: ItemKind, itemId: string)

  datatype LedgerRow = LedgerRow(point: PointId, sourceDigest: string, vectorDigest: string)

  type Points = map<PointId, Signal>
  type Ledger = map<LedgerKey, LedgerRow>

  function IdOf(owner: Owner, signal: Signal): PointId {
    PointId(owner, signal.signalId, signal.vectorDigest)
  }

  predicate Owns(owner: Owner, signal: Signal) {
    signal.tenant == owner.tenant && signal.ownerId == owner.id
  }

  /** The points a batch upsert writes: a later signal replaces an earlier one with the same point id. */
  function PointsOf(owner: Owner, signals: seq<Signal>): Points {
    if signals == [] then map[]
    else
      var last := signals[|signals| - 1];
      PointsOf(owner, signals[..|signals| - 1])[IdOf(owner, last) := last]
  }

  function RowOf(owner: Owner, signal: Signal): LedgerRow {
    LedgerRow(IdOf(owner, signal), signal.sourceDigest, signal.vectorDigest)
  }

  /** The ledger rows of the same signals: a later one replaces an earlier one with the same signal id. */
  function RowsOf(owner: Owner, signals: seq<Signal>): Ledger {
    if signals == [] then map[]
    else
      var last := signals[|signals| - 1];
      RowsOf(owner, signals[..|signals| - 1])[LedgerKey(owner, SignalItem, last.signalId) := RowOf(owner, last)]
  }

  function PointsOutside(points: Points, owner: Owner): Points {
    map p | p in points && p.owner != owner :: points[p]
  }

  function LedgerOutside(ledger: Ledger, owner: Owner): Ledger {
    map k | k in ledger && !(k.source == owner && k.itemKind == SignalItem) :: ledger[k]
  }

  function PointsKeeping(points: Points, owner: Owner, digest: string): Points {
    map p | p in points && (p.owner != owner || points[p].sourceDigest == digest) :: points[p]
  }

  function LedgerKeeping(ledger: Ledger, owner: Owner, digest: string): Ledger {
    map k | k in ledger && !(k.source == owner && k.itemKind == SignalItem && ledger[k].sourceDigest != digest)
      :: ledger[k]
  }

  /** A point carries the signal id and vector digest that its id was derived from. */
  ghost predicate WellStored(points: Points) {
    forall p | p in points :: p == IdOf(p.owner, points[p]) && Owns(p.owner, points[p])
  }

  /** The ledger rows of an owner's signals list exactly the points stored for it, with their digests. */
  ghost predicate Agree(points: Points, ledger: Ledger, owner: Owner) {
    && (forall p | p in points && p.owner == owner ::
          var k := LedgerKey(owner, SignalItem, p.signalId);
          k in ledger && ledger[k] == RowOf(owner, points[p]))
    && (forall k | k in ledger && k.source == owner && k.itemKind == SignalItem ::
          && ledger[k].point in points && ledger[k].point.owner == owner
          && points[ledger[k].point].signalId == k.itemId
          && ledger[k] == RowOf(owner, points[ledger[k].point]))
  }

  /** Two signals of a command that share an id have the same vector input. */
  ghost predicate OneVectorPerId(signals: seq<Signal>) {
    forall i, j | 0 <= i < j < |signals| && signals[i].signalId == signals[j].signalId ::
      signals[i].vectorDigest == signals[j].vectorDigest
  }

  lemma {:induction false} PointsOfContents(owner: Owner, signals: seq<Signal>)
    ensures forall s | s in signals :: IdOf(owner, s) in PointsOf(owner, signals)
    ensures forall p | p in PointsOf(owner, signals) ::
              PointsOf(owner, signals)[p] in signals && p == IdOf(owner, PointsOf(owner, signals)[p])
  {
    if signals != [] {
      var init, last := signals[..|signals| - 1], signals[|signals| - 1];
      assert signals == init + [last];
      PointsOfContents(owner, init);
    }
  }

  lemma {:induction false} RowsOfContents(owner: Owner, signals: seq<Signal>)
    ensures forall s | s in signals :: LedgerKey(owner, SignalItem, s.signalId) in RowsOf(owner, signals)
    ensures forall k | k in RowsOf(owner, signals) ::
              && k.source == owner && k.itemKind == SignalItem
              && exists s | s in signals :: s.signalId == k.itemId && RowsOf(owner, signals)[k] == RowOf(owner, s)
  {
    if signals != [] {
      var init, last := signals[..|signals| - 1], signals[|signals| - 1];
      assert signals == init + [last];
      RowsOfContents(owner, init);
    }
  }

  /** No later signal of the command is written to the same point, or to the same ledger row. */
  predicate LastOfPoint(signals: seq<Signal>, i: nat)
    requires i < |signals|
  {
    forall j | i < j < |signals| ::
      signals[j].signalId != signals[i].signalId || signals[j].vectorDigest != signals[i].vectorDigest
  }

  predicate LastOfId(signals: seq<Signal>, i: nat)
    requires i < |signals|
  {
    forall j | i < j < |signals| :: signals[j].signalId != signals[i].signalId
  }

  lemma {:induction false} LastPointStays(owner: Owner, signals: seq<Signal>, i: nat)
    requires i < |signals| && LastOfPoint(signals, i)
    ensures var p := PointId(owner, signals[i].signalId, signals[i].vectorDigest);
            p in PointsOf(owner, signals) && PointsOf(owner, signals)[p] == signals[i]
  {
    if i < |signals| - 1 {
      var init := signals[..|signals| - 1];
      assert forall j | i < j < |init| :: init[j] == signals[j];
      LastPointStays(owner, init, i);
    }
  }

  lemma {:induction false} LastRowStays(owner: Owner, signals: seq<Signal>, i: nat)
    requires i < |signals| && LastOfId(signals, i)
    ensures var k, s := LedgerKey(owner, SignalItem, signals[i].signalId), signals[i];
            && k in RowsOf(owner, signals)
            && RowsOf(owner, signals)[k]
               == LedgerRow(PointId(owner, s.signalId, s.vectorDigest), s.sourceDigest, s.vectorDigest)
  {
    if i < |signals| - 1 {
      var init := signals[..|signals| - 1];
      assert forall j | i < j < |init| :: init[j] == signals[j];
      LastRowStays(owner, init, i);
    }
  }

  /** Outside one owner, store and ledger are as they were. */
  ghost predicate OthersKept(points: Points, points': Points, ledger: Ledger, ledger': Ledger, owner: Owner) {
    && (forall p: PointId | p.owner != owner ::
          (p in points <==> p in points') && (p in points ==> points'[p] == points[p]))
    && (forall k: LedgerKey | k.source != owner || k.itemKind != SignalItem ::
          (k in ledger <==> k in ledger') && (k in ledger ==> ledger'[k] == ledger[k]))
  }

  /** Of the owner, store and ledger hold exactly these signals, the last one of each point and of each id. */
  ghost predicate OwnersAre(points: Points, ledger: Ledger, owner: Owner, signals: seq<Signal>) {
    && (forall p | p in points && p.owner == owner ::
          exists i | 0 <= i < |signals| :: p == PointId(owner, signals[i].signalId, signals[i].vectorDigest))
    && (forall i | 0 <= i < |signals| && LastOfPoint(signals, i) ::
          var p := PointId(owner, signals[i].signalId, signals[i].vectorDigest);
          p in points && points[p] == signals[i])
    && (forall k | k in ledger && k.source == owner && k.itemKind == SignalItem ::
          exists i | 0 <= i < |signals| :: k.itemId == signals[i].signalId)
    && (forall i | 0 <= i < |signals| && LastOfId(signals, i) ::
          var k, s := LedgerKey(owner, SignalItem, signals[i].signalId), signals[i];
          && k in ledger
          && ledger[k] == LedgerRow(PointId(owner, s.signalId, s.vectorDigest), s.sourceDigest, s.vectorDigest))
  }

  lemma {:induction false} ReplacedContents(points: Points, ledger: Ledger, owner: Owner, signals: seq<Signal>)
    ensures var points' := PointsOutside(points, owner) + PointsOf(owner, signals);
            var ledger' := LedgerOutside(ledger, owner) + RowsOf(owner, signals);
            OthersKept(points, points', ledger, ledger', owner) && OwnersAre(points', ledger', owner, signals)
  {
    PointsOfContents(owner, signals);
    RowsOfContents(owner, signals);
    var points' := PointsOutside(points, owner) + PointsOf(owner, signals);
    var ledger' := LedgerOutside(ledger, owner) + RowsOf(owner, signals);
    forall i | 0 <= i < |signals| && LastOfPoint(signals, i)
      ensures var p := PointId(owner, signals[i].signalId, signals[i].vectorDigest);
              p in points' && points'[p] == signals[i]
    {
      LastPointStays(owner, signals, i);
    }
    forall i | 0 <= i < |signals| && LastOfId(signals, i)
      ensures var k, s := LedgerKey(owner, SignalItem, signals[i].signalId), signals[i];
              && k in ledger'
              && ledger'[k] == LedgerRow(PointId(owner, s.signalId, s.vectorDigest), s.sourceDigest, s.vectorDigest)
    {
      LastRowStays(owner, signals, i);
    }
  }

  /** With one vector per signal id, the last point written for an id is the one the ledger lists. */
  lemma {:induction false} LastRowListsPoint(owner: Owner, signals: seq<Signal>, p: PointId)
    requires OneVectorPerId(signals) && p in PointsOf(owner, signals)
    ensures var k := LedgerKey(owner, SignalItem, p.signalId);
            k in RowsOf(owner, signals) && RowsOf(owner, signals)[k] == RowOf(owner, PointsOf(owner, signals)[p])
  {
    var init, last := signals[..|signals| - 1], signals[|signals| - 1];
    assert signals == init + [last];
    if p != IdOf(owner, last) {
      LastRowListsPoint(owner, init, p);
      PointsOfContents(owner, init);
      var s := PointsOf(owner, init)[p];
      assert s in init && s.signalId == last.signalId ==> s.vectorDigest == last.vectorDigest;
    }
  }

  lemma {:induction false} LastWriteAgrees(owner: Owner, signals: seq<Signal>)
    requires OneVectorPerId(signals)
    ensures Agree(PointsOf(owner, signals), RowsOf(owner, signals), owner)
  {
    PointsOfContents(owner, signals);
    RowsOfContents(owner, signals);
    forall p | p in PointsOf(owner, signals)
      ensures var k := LedgerKey(owner, SignalItem, p.signalId);
              k in RowsOf(owner, signals) && RowsOf(owner, signals)[k] == RowOf(owner, PointsOf(owner, signals)[p])
    {
      LastRowListsPoint(owner, signals, p);
    }
  }

  /**
   After a projection, the ledger and the store agree about the owner exactly when no two signals of
   the command share an id but not the vector input.
   */
  lemma {:induction false} ProjectedAgree(owner: Owner, signals: seq<Signal>)
    ensures Agree(PointsOf(owner, signals), RowsOf(owner, signals), owner) <==> OneVectorPerId(signals)
  {
    if OneVectorPerId(signals) {
      LastWriteAgrees(owner, signals);
    } else {
      var i, j :| 0 <= i < j < |signals| && signals[i].signalId == signals[j].signalId
                  && signals[i].vectorDigest != signals[j].vectorDigest;
      PointsOfContents(owner, signals);
      assert signals[i] in signals && signals[j] in signals;
      assert IdOf(owner, signals[i]) in PointsOf(owner, signals) && IdOf(owner, signals[j]) in PointsOf(owner, signals);
    }
  }

  /** Two signals with one id and two vector inputs leave two points but one ledger row. */
  lemma {:induction false} RepeatedIdDisagrees(owner: Owner, signal: Signal, vectorDigest: string)
    requires vectorDigest != signal.vectorDigest
    ensures var signals := [signal, signal.(vectorDigest := vectorDigest)];
            && |PointsOf(owner, signals)| == 2 && |RowsOf(owner, signals)| == 1
            && !Agree(PointsOf(owner, signals), RowsOf(owner, signals), owner)
  {
    var other := signal.(vectorDigest := vectorDigest);
    var signals := [signal, other];
    assert signals[..1] == [signal] && [signal][..0] == [];
    assert PointsOf(owner, [signal]) == map[IdOf(owner, signal) := signal];
    assert PointsOf(owner, signals) == map[IdOf(owner, signal) := signal, IdOf(owner, other) := other];
    var key := LedgerKey(owner, SignalItem, signal.signalId);
    assert RowsOf(owner, [signal]) == map[key := RowOf(owner, signal)];
    assert RowsOf(owner, signals) == map[key := RowOf(owner, other)];
    assert signals[0].signalId == signals[1].signalId;
    ProjectedAgree(owner, signals);
  }

  lemma {:induction false} ProjectedWellStored(points: Points, owner: Owner, signals: seq<Signal>)
    requires WellStored(points) && forall s | s in signals :: Owns(owner, s)
    ensures WellStored(PointsOutside(points, owner) + PointsOf(owner, signals))
  {
    PointsOfContents(owner, signals);
  }

  /** Replacing the signals of one owner shows in the agreement about that owner only. */
  lemma {:induction false} ReplacementIsLocal(points: Points, ledger: Ledger, owner: Owner, signals: seq<Signal>,
                                              other: Owner)
    ensures var points' := PointsOutside(points, owner) + PointsOf(owner, signals);
            var ledger' := LedgerOutside(ledger, owner) + RowsOf(owner, signals);
            Agree(points', ledger', other)
            <==> if other == owner then OneVectorPerId(signals) else Agree(points, ledger, other)
  {
    PointsOfContents(owner, signals);
    RowsOfContents(owner, signals);
    ProjectedAgree(owner, signals);
    ReplacedOwner(points, ledger, owner, PointsOf(owner, signals), RowsOf(owner, signals), other);
  }

  lemma {:induction false} ReplacedOwner(points: Points, ledger: Ledger, owner: Owner, made: Points, rows: Ledger,
                                         other: Owner)
    requires forall p | p in made :: p.owner == owner
    requires forall k | k in rows :: k.source == owner && k.itemKind == SignalItem
    ensures var points', ledger' := PointsOutside(points, owner) + made, LedgerOutside(ledger, owner) + rows;
            Agree(points', ledger', other)
            <==> if other == owner then Agree(made, rows, owner) else Agree(points, ledger, other)
  {
    var points', ledger' := PointsOutside(points, owner) + made, LedgerOutside(ledger, owner) + rows;
    if other == owner {
      SameForOwner(made, points', rows, ledger', owner);
    } else {
      SameForOwner(points, points', ledger, ledger', other);
    }
  }

  /** Agreement about an owner depends on that owner's points and rows only. */
  lemma {:induction false} SameForOwner(points: Points, points': Points, ledger: Ledger, ledger': Ledger, owner: Owner)
    requires forall p: PointId | p.owner == owner :: p in points <==> p in points'
    requires forall p | p in points && p.owner == owner :: points'[p] == points[p]
    requires forall k: LedgerKey | k.source == owner && k.itemKind == SignalItem :: k in ledger <==> k in ledger'
    requires forall k | k in ledger && k.source == owner && k.itemKind == SignalItem :: ledger'[k] == ledger[k]
    ensures Agree(points, ledger, owner) <==> Agree(points', ledger', owner)
  {
  }

  /** Both filters drop the same signals, all of one owner: agreement about others is as it was. */
  lemma {:induction false} DroppingStaleAgrees(points: Points, ledger: Ledger, owner: Owner, digest: string,
                                               other: Owner)
    requires WellStored(points)
    ensures var points', ledger' := PointsKeeping(points, owner, digest), LedgerKeeping(ledger, owner, digest);
            && (Agree(points, ledger, other) ==> Agree(points', ledger', other))
            && (other != owner && Agree(points', ledger', other) ==> Agree(points, ledger, other))
  {
    if other != owner {
      SameForOwner(points, PointsKeeping(points, owner, digest), ledger, LedgerKeeping(ledger, owner, digest), other);
    }
  }

  class SignalProjector {
    var points: Points
    var ledger: Ledger

    ghost predicate Valid()
      reads this
    {
      WellStored(points)
    }

    ghost predicate AllAgree()
      reads this
    {
      forall owner :: Agree(points, ledger, owner)
    }

    constructor ()
      ensures Valid() && AllAgree()
    {
      points, ledger := map[], map[];
    }

    method UpsertRecords(owner: Owner, signals: seq<Signal>)
      modifies this`ledger
      ensures ledger == old(ledger) + RowsOf(owner, signals)
    {
      for i := 0 to |signals|
        invariant ledger == old(ledger) + RowsOf(owner, signals[..i])
      {
        assert signals[..i + 1][..i] == signals[..i];
        ledger := ledger[LedgerKey(owner, SignalItem, signals[i].signalId) := RowOf(owner, signals[i])];
      }
      assert signals[..|signals|] == signals;
    }

    method UpsertPoints(owner: Owner, signals: seq<Signal>)
      modifies this`points
      ensures points == old(points) + PointsOf(owner, signals)
    {
      for i := 0 to |signals|
        invariant points == old(points) + PointsOf(owner, signals[..i])
      {
        assert signals[..i + 1][..i] == signals[..i];
        points := points[IdOf(owner, signals[i]) := signals[i]];
      }
      assert signals[..|signals|] == signals;
    }

    /**
     `project_document_signals` and `project_folder_signals`: a command that is not fresh changes
     nothing, one with a foreign signal is refused before anything is written.
     */
    method Project(owner: Owner, signals: seq<Signal>, current: bool) returns (result: Result<()>)
      requires Valid()
      modifies this
      ensures Valid()
      ensures result.Err? <==> current && exists s | s in signals :: s.tenant != owner.tenant || s.ownerId != owner.id
      ensures !current || result.Err? ==> points == old(points) && ledger == old(ledger)
      ensures current && result.Ok? ==>
        && points == PointsOutside(old(points), owner) + PointsOf(owner, signals)
        && ledger == LedgerOutside(old(ledger), owner) + RowsOf(owner, signals)
        && OthersKept(old(points), points, old(ledger), ledger, owner)
        && OwnersAre(points, ledger, owner, signals)
        && (Agree(points, ledger, owner) <==> OneVectorPerId(signals))
      ensures forall other | current && result.Ok? && other != owner ::
        Agree(points, ledger, other) <==> Agree(old(points), old(ledger), other)
      ensures old(AllAgree()) && OneVectorPerId(signals) ==> AllAgree()
    {
      if !current {
        return Ok(());
      }
      if exists s | s in signals :: !Owns(owner, s) {
        return Err("all signals must belong to the replaced owner.");
      }
      ProjectedWellStored(points, owner, signals);
      ghost var pointsBefore, ledgerBefore := points, ledger;
      ReplacedContents(points, ledger, owner, signals);
      points := PointsOutside(points, owner);
      UpsertPoints(owner, signals);
      ledger := LedgerOutside(ledger, owner);
      UpsertRecords(owner, signals);
      forall other
        ensures Agree(points, ledger, other)
           <==> if other == owner then OneVectorPerId(signals) else Agree(pointsBefore, ledgerBefore, other)
      {
        ReplacementIsLocal(pointsBefore, ledgerBefore, owner, signals, other);
      }
      result := Ok(());
    }

    /** `delete_document_signals` and `delete_folder_signals`, which no freshness check guards. */
    method Delete(owner: Owner)
      requires Valid()
      modifies this
      ensures Valid() && Agree(points, ledger, owner)
      ensures points == PointsOutside(old(points), owner) && ledger == LedgerOutside(old(ledger), owner)
      ensures OthersKept(old(points), points, old(ledger), ledger, owner) && OwnersAre(points, ledger, owner, [])
      ensures forall other | other != owner :: Agree(points, ledger, other) <==> Agree(old(points), old(ledger), other)
      ensures old(AllAgree()) ==> AllAgree()
    {
      forall other
        ensures Agree(PointsOutside(points, owner), LedgerOutside(ledger, owner), other)
           <==> other == owner || Agree(points, ledger, other)
      {
        ReplacementIsLocal(points, ledger, owner, [], other);
        assert PointsOutside(points, owner) + map[] == PointsOutside(points, owner);
        assert LedgerOutside(ledger, owner) + map[] == LedgerOutside(ledger, owner);
      }
      points := PointsOutside(points, owner);
      ledger := LedgerOutside(ledger, owner);
    }

    /** `invalidate_folder_signals`: keeps only what was generated from the current digest. */
    method InvalidateStale(owner: Owner, digest: string, current: bool)
      requires Valid() && owner.kind == FolderOwner
      modifies this
      ensures Valid()
      ensures points == if current then PointsKeeping(old(points), owner, digest) else old(points)
      ensures ledger == if current then LedgerKeeping(old(ledger), owner, digest) else old(ledger)
      ensures forall p | p in old(points) ::
        p in points <==> !current || p.owner != owner || old(points)[p].sourceDigest == digest
      ensures forall p | p in points :: p in old(points) && points[p] == old(points)[p]
      ensures forall k | k in old(ledger) ::
        k in ledger <==>
          !current || k.source != owner || k.itemKind != SignalItem || old(ledger)[k].sourceDigest == digest
      ensures forall k | k in ledger :: k in old(ledger) && ledger[k] == old(ledger)[k]
      ensures forall other | Agree(old(points), old(ledger), other) :: Agree(points, ledger, other)
      ensures forall other | other != owner :: Agree(points, ledger, other) ==> Agree(old(points), old(ledger), other)
    {
      if current {
        ghost var points', ledger' := PointsKeeping(points, owner, digest), LedgerKeeping(ledger, owner, digest);
        forall other
          ensures Agree(points, ledger, other) ==> Agree(points', ledger', other)
          ensures other != owner && Agree(points', ledger', other) ==> Agree(points, ledger, other)
        {
          DroppingStaleAgrees(points, ledger, owner, digest, other);
        }
        points := PointsKeeping(points, owner, digest);
        ledger := LedgerKeeping(ledger, owner, digest);
      }
    }
  }
}
