/** What each command leaves in the graph, told from the graph before it and the command alone. */
module GraphOutcomes {
  import opened Common
  import opened GraphProjection

  predicate Tombstone(g: Graph, f: Key) {
    f in g.folders && g.folders[f].state == Deleted
  }

  /**
   A replaced folder is active with its properties. It has a parent edge exactly to the parent of the
   command, unless that is deleted; all other edges and all other existing folders stay as they were.
   */
  lemma {:induction false} FolderAsCommanded(g: Graph, f: Key, properties: string, parent: Option<string>, p: Key)
    ensures var after := ReplaceFolder(g, f, properties, parent);
            && f in after.folders && after.folders[f] == Folder(Active, properties)
            && ((f, p) in after.childOf <==>
                  parent.Some? && p == Key(f.tenant, parent.value) && (p == f || !Tombstone(g, p)))
            && (forall e: (Key, Key) | e.0 != f :: e in after.childOf <==> e in g.childOf)
            && (forall k | k in g.folders && k != f :: k in after.folders && after.folders[k] == g.folders[k])
            && after.inFolder == g.inFolder && after.hasSignal == g.hasSignal && after.documents == g.documents
  {
    var after := ReplaceFolder(g, f, properties, parent);
    var folders := g.folders[f := Folder(Active, properties)];
    assert after.folders[f] == folders[f];
    assert p != f ==> (Tombstone(g, p) <==> p in folders && folders[p].state == Deleted);
  }

  /**
   A document is in exactly the folders of the command that are not deleted; no other membership
   changes, and no folder that existed before does.
   */
  lemma {:induction false} MembershipsAsCommanded(g: Graph, d: Key, ids: seq<string>, f: Key)
    ensures var after := ReplaceFolderRelations(g, d, ids);
            && ((d, f) in after.inFolder <==> f.tenant == d.tenant && f.id in ids && !Tombstone(g, f))
            && (forall e: (Key, Key) | e.0 != d :: e in after.inFolder <==> e in g.inFolder)
            && (forall k | k in g.folders :: k in after.folders && after.folders[k] == g.folders[k])
            && (f in after.folders <==> f in g.folders || (f.tenant == d.tenant && f.id in ids))
            && after.childOf == g.childOf && after.hasSignal == g.hasSignal
  {
    ReferencesAdded(g.folders, d.tenant, ids);
    if f.tenant == d.tenant && f.id in ids {
      var i :| 0 <= i < |ids| && ids[i] == f.id;
      assert Key(d.tenant, ids[i]) == f;
    }
  }

  /** The last signal of an id in a command is the one that stays. */
  predicate LastOfItsId(signals: seq<Signal>, i: nat)
    requires i < |signals|
  {
    forall j | i < j < |signals| :: signals[j].id != signals[i].id
  }

  lemma {:induction false} LastSignalStays(owner: Owner, signals: seq<Signal>, i: nat)
    requires i < |signals| && LastOfItsId(signals, i)
    ensures IdOf(owner, signals[i]) in NodesOf(owner, signals)
    ensures NodesOf(owner, signals)[IdOf(owner, signals[i])]
            == SignalNode(owner, signals[i].digest, signals[i].properties)
  {
    var n := |signals| - 1;
    if i < n {
      assert signals[n].id != signals[i].id;
      assert forall j | i < j < n :: signals[..n][j].id != signals[..n][i].id;
      LastSignalStays(owner, signals[..n], i);
    }
  }

  /**
   The owner's signals are exactly those of the command, the last one of each id. Signals of others
   stay, unless the command has their id.
   */
  lemma {:induction false} SignalsAsCommanded(g: Graph, owner: Owner, signals: seq<Signal>)
    ensures var after := ReplaceSignals(g, owner, signals);
            && Owned(after, owner) == IdsOf(owner, signals)
            && (forall i | 0 <= i < |signals| && LastOfItsId(signals, i) ::
                  && IdOf(owner, signals[i]) in after.signals
                  && after.signals[IdOf(owner, signals[i])]
                     == SignalNode(owner, signals[i].digest, signals[i].properties))
            && (forall s | s in g.signals && g.signals[s].owner != owner && s !in IdsOf(owner, signals) ::
                  s in after.signals && after.signals[s] == g.signals[s])
  {
    var nodes := NodesOf(owner, signals);
    ReplacedParts(g, owner, signals);
    NodesTwice(g.signals, owner, nodes);
    var after := ReplaceSignals(g, owner, signals);
    assert Owned(after, owner) == OwnedIn(after.signals, owner);
    forall i | 0 <= i < |signals| && LastOfItsId(signals, i)
      ensures IdOf(owner, signals[i]) in nodes
      ensures nodes[IdOf(owner, signals[i])] == SignalNode(owner, signals[i].digest, signals[i].properties)
    {
      LastSignalStays(owner, signals, i);
    }
  }

  // Along runs

  lemma {:induction false} RunSnoc(g: Graph, commands: seq<Command>)
    requires commands != []
    ensures Run(g, commands) == Apply(Run(g, commands[..|commands| - 1]), commands[|commands| - 1])
    decreases |commands|
  {
    if |commands| > 1 {
      RunSnoc(Apply(g, commands[0]), commands[1..]);
      assert commands[1..][..|commands| - 2] == commands[..|commands| - 1][1..];
    }
  }

  predicate Revives(c: Command, f: Key) {
    c.ReplaceFolderCommand? && c.folder == f
  }

  lemma {:induction false} TombstoneStep(g: Graph, c: Command, f: Key)
    ensures Tombstone(Apply(g, c), f) <==>
            (c == DeleteFolderCommand(f) && f in g.folders) || (Tombstone(g, f) && !Revives(c, f))
  {
    match c
    case ReplaceFolderRelationsCommand(d, ids) => ReferencesAdded(g.folders, d.tenant, ids);
    case _ =>
  }

  /** Command `i` deletes folder `f`, which exists by then, and no later command replaces it. */
  ghost predicate DeletedFor(commands: seq<Command>, f: Key, i: nat)
    requires i < |commands|
  {
    && commands[i] == DeleteFolderCommand(f) && f in Run(EMPTY, commands[..i]).folders
    && forall j | i < j < |commands| :: !Revives(commands[j], f)
  }

  lemma {:induction false} DeletedForMore(init: seq<Command>, c: Command, f: Key, i: nat)
    requires i <= |init|
    ensures DeletedFor(init + [c], f, i) <==>
            if i == |init| then c == DeleteFolderCommand(f) && f in Run(EMPTY, init).folders
            else DeletedFor(init, f, i) && !Revives(c, f)
  {
    var commands := init + [c];
    assert commands[..i] == init[..i] && init[..|init|] == init;
    if i < |init| {
      assert commands[i] == init[i] && commands[|init|] == c;
      assert forall j | i < j < |init| :: commands[j] == init[j];
    }
  }

  lemma {:induction false} TombstonesOfRun(commands: seq<Command>, f: Key)
    ensures Tombstone(Run(EMPTY, commands), f) <==> exists i | 0 <= i < |commands| :: DeletedFor(commands, f, i)
  {
    if commands != [] {
      var n := |commands| - 1;
      var init, c := commands[..n], commands[n];
      assert commands == init + [c];
      RunSnoc(EMPTY, commands);
      TombstonesOfRun(init, f);
      TombstoneStep(Run(EMPTY, init), c, f);
      forall i | 0 <= i <= n
        ensures DeletedFor(commands, f, i) <==>
                if i == n then c == DeleteFolderCommand(f) && f in Run(EMPTY, init).folders
                else DeletedFor(init, f, i) && !Revives(c, f)
      {
        DeletedForMore(init, c, f, i);
      }
      if i :| 0 <= i < n && DeletedFor(init, f, i) && !Revives(c, f) {
        assert DeletedFor(commands, f, i);
      }
      assert DeletedFor(commands, f, n) <==> c == DeleteFolderCommand(f) && f in Run(EMPTY, init).folders;
    }
  }

  /**
   In every graph a run reaches: a folder is a tombstone exactly when it was deleted and not replaced
   since, whatever else pointed at it, and then no membership and no parent edge touches it.
   */
  lemma {:induction false} TombstonesStayUntilReplaced(commands: seq<Command>, f: Key)
    ensures var g := Run(EMPTY, commands);
            && (Tombstone(g, f) <==> exists i | 0 <= i < |commands| :: DeletedFor(commands, f, i))
            && (Tombstone(g, f) ==> forall k :: (k, f) !in g.inFolder && (k, f) !in g.childOf && (f, k) !in g.childOf)
  {
    TombstonesOfRun(commands, f);
    ReachableGraphsAreSafe(commands);
  }

  predicate Names(c: Command, d: Key) {
    (c.ReplaceDocumentCommand? || c.ReplaceFolderRelationsCommand?) && c.document == d
  }

  lemma {:induction false} DocumentStep(g: Graph, c: Command, d: Key)
    ensures d in Apply(g, c).documents <==> Names(c, d) || (d in g.documents && c != DeleteDocumentCommand(d))
  {
  }

  /** Command `i` writes document `d`, and no later command deletes it. */
  predicate WrittenAt(commands: seq<Command>, d: Key, i: nat)
    requires i < |commands|
  {
    Names(commands[i], d) && forall j | i < j < |commands| :: commands[j] != DeleteDocumentCommand(d)
  }

  lemma {:induction false} WrittenAtMore(init: seq<Command>, c: Command, d: Key, i: nat)
    requires i <= |init|
    ensures WrittenAt(init + [c], d, i) <==>
            if i == |init| then Names(c, d) else WrittenAt(init, d, i) && c != DeleteDocumentCommand(d)
  {
    var commands := init + [c];
    if i < |init| {
      assert commands[i] == init[i] && commands[|init|] == c;
      assert forall j | i < j < |init| :: commands[j] == init[j];
    }
  }

  lemma {:induction false} DocumentsOfRun(commands: seq<Command>, d: Key)
    ensures d in Run(EMPTY, commands).documents <==> exists i | 0 <= i < |commands| :: WrittenAt(commands, d, i)
  {
    if commands != [] {
      var n := |commands| - 1;
      var init, c := commands[..n], commands[n];
      assert commands == init + [c];
      RunSnoc(EMPTY, commands);
      DocumentsOfRun(init, d);
      DocumentStep(Run(EMPTY, init), c, d);
      forall i | 0 <= i <= n
        ensures WrittenAt(commands, d, i) <==>
                if i == n then Names(c, d) else WrittenAt(init, d, i) && c != DeleteDocumentCommand(d)
      {
        WrittenAtMore(init, c, d, i);
      }
      if i :| 0 <= i < n && WrittenAt(init, d, i) && c != DeleteDocumentCommand(d) {
        assert WrittenAt(commands, d, i);
      }
      assert WrittenAt(commands, d, n) <==> Names(c, d);
    }
  }

  /**
   In every graph a run reaches: a document has a node exactly when it was written and not deleted
   since, and without a node no edge touches it.
   */
  lemma {:induction false} DocumentsStayUntilDeleted(commands: seq<Command>, d: Key)
    ensures var g := Run(EMPTY, commands);
            && (d in g.documents <==> exists i | 0 <= i < |commands| :: WrittenAt(commands, d, i))
            && (d !in g.documents ==>
                  && (forall f :: (d, f) !in g.inFolder)
                  && (forall s :: (DocumentOwner(d), s) !in g.hasSignal && (s, d) !in g.about))
  {
    DocumentsOfRun(commands, d);
    ReachableGraphsAreSafe(commands);
  }

  /**
   Storing a folder's signals and then invalidating them leaves of that folder exactly the signals
   stored last under their id and generated from the current digest, whatever was there before.
   */
  lemma {:induction false} StoredThenInvalidated(g: Graph, f: Key, signals: seq<Signal>, digest: string, s: SignalId)
    ensures var after := DeleteStaleSignals(ReplaceSignals(g, FolderOwner(f), signals), f, digest);
            s in after.signals && after.signals[s].owner == FolderOwner(f) <==>
            exists i | 0 <= i < |signals| ::
              s == IdOf(FolderOwner(f), signals[i]) && LastOfItsId(signals, i) && signals[i].digest == digest
  {
    SignalsAsCommanded(g, FolderOwner(f), signals);
    var stored := ReplaceSignals(g, FolderOwner(f), signals);
    if s in IdsOf(FolderOwner(f), signals) {
      var i := LastWithId(FolderOwner(f), signals, s);
      assert s in Owned(stored, FolderOwner(f)) && stored.signals[s].digest == signals[i].digest;
    } else {
      assert s !in Owned(stored, FolderOwner(f));
    }
  }

  lemma {:induction false} LastWithId(owner: Owner, signals: seq<Signal>, s: SignalId) returns (i: nat)
    requires s in IdsOf(owner, signals)
    ensures i < |signals| && IdOf(owner, signals[i]) == s && LastOfItsId(signals, i)
    ensures forall k | 0 <= k < |signals| && IdOf(owner, signals[k]) == s && LastOfItsId(signals, k) :: k == i
  {
    i :| 0 <= i < |signals| && s == IdOf(owner, signals[i]);
    i := LastFrom(signals, i);
    forall k | 0 <= k < |signals| && IdOf(owner, signals[k]) == s && LastOfItsId(signals, k) ensures k == i {
      assert signals[k].id == signals[i].id;
    }
  }

  lemma {:induction false} LastFrom(signals: seq<Signal>, from: nat) returns (i: nat)
    requires from < |signals|
    ensures i < |signals| && signals[i].id == signals[from].id && LastOfItsId(signals, i)
    decreases |signals| - from
  {
    i := from;
    if j :| from < j < |signals| && signals[j].id == signals[from].id {
      i := LastFrom(signals, j);
    }
  }
}
