/**
 The statements a projection sends to the graph database, one by one, carrying out the commands of
 `GraphProjection`.
 */
module GraphSession {
  import opened Common
  import opened GraphProjection

  lemma {:induction false} MembershipsSnoc(folders: map<Key, Folder>, d: Key, ids: seq<string>, last: string)
    ensures LiveMemberships(folders, d, ids + [last])
         == LiveMemberships(folders, d, ids)
          + (if Key(d.tenant, last) in folders && folders[Key(d.tenant, last)].state == Deleted
             then {} else {(d, Key(d.tenant, last))})
  {
    var all := ids + [last];
    forall e | e in LiveMemberships(folders, d, ids) ensures e in LiveMemberships(folders, d, all) {
      var i :| 0 <= i < |ids| && e == (d, Key(d.tenant, ids[i]))
               && !(Key(d.tenant, ids[i]) in folders && folders[Key(d.tenant, ids[i])].state == Deleted);
      assert all[i] == ids[i];
    }
    assert all[|ids|] == last;
  }

  /** Linking a document to folders, creating those that are missing as references. */
  function WithLinks(g: Graph, d: Key, ids: seq<string>): Graph {
    g.(folders := WithReferences(g.folders, d.tenant, ids), inFolder := g.inFolder + LiveMemberships(g.folders, d, ids))
  }

  function WithLink(g: Graph, d: Key, id: string): Graph {
    var folders := WithReference(g.folders, Key(d.tenant, id));
    g.(folders := folders,
       inFolder := g.inFolder + if Live(folders, Key(d.tenant, id)) then {(d, Key(d.tenant, id))} else {})
  }

  lemma {:induction false} NoLinks(g: Graph, d: Key)
    ensures WithLinks(g, d, []) == g
  {
  }

  /** Creating references never revives a deleted folder, so the order of the links does not matter. */
  lemma {:induction false} WithLinksSnoc(g: Graph, d: Key, ids: seq<string>, last: string)
    ensures WithLinks(g, d, ids + [last]) == WithLink(WithLinks(g, d, ids), d, last)
  {
    var f := Key(d.tenant, last);
    MembershipsSnoc(g.folders, d, ids, last);
    ReferencesAdded(g.folders, d.tenant, ids);
    assert (ids + [last])[..|ids|] == ids;
    UniteOne(g.inFolder, LiveMemberships(g.folders, d, ids),
             if f in g.folders && g.folders[f].state == Deleted then {} else {(d, f)});
  }

  lemma {:induction false} AboutSnoc(g: Graph, owner: Owner, signals: seq<Signal>, last: Signal)
    ensures AboutEdges(g, owner, signals + [last]) == AboutEdges(g, owner, signals) + AboutEdges(g, owner, [last])
  {
    var all := signals + [last];
    assert [last][0] == last && all[|signals|] == last;
    forall i | 0 <= i < |signals| ensures all[i] == signals[i] {
    }
    forall e | e in AboutEdges(g, owner, signals) ensures e in AboutEdges(g, owner, all) {
      var i :| 0 <= i < |signals| && owner.FolderOwner? && signals[i].related.Some?
               && Key(owner.key.tenant, signals[i].related.value) in g.documents
               && e == (IdOf(owner, signals[i]), Key(owner.key.tenant, signals[i].related.value));
      assert all[i] == signals[i];
    }
  }

  lemma {:induction false} HasSnoc(g: Graph, owner: Owner, signals: seq<Signal>, last: Signal)
    ensures HasEdges(g, owner, signals + [last]) == HasEdges(g, owner, signals)
                                                  + (if Exists(g, owner) then {(owner, IdOf(owner, last))} else {})
  {
    IdsOfSnoc(owner, signals, last);
  }

  lemma {:induction false} NodesSnoc(owner: Owner, signals: seq<Signal>, last: Signal)
    ensures NodesOf(owner, signals + [last])
         == NodesOf(owner, signals)[IdOf(owner, last) := SignalNode(owner, last.digest, last.properties)]
  {
    assert (signals + [last])[..|signals|] == signals;
  }

  lemma {:induction false} MergeOne<K, V>(m: map<K, V>, n: map<K, V>, k: K, v: V)
    ensures m + n[k := v] == (m + n)[k := v]
  {
  }

  lemma {:induction false} UniteOne<T>(a: set<T>, b: set<T>, c: set<T>)
    ensures a + (b + c) == a + b + c
  {
  }

  /** Merging one signal node with its edges. */
  function WithSignal(g: Graph, owner: Owner, signal: Signal): Graph {
    g.(signals := g.signals[IdOf(owner, signal) := SignalNode(owner, signal.digest, signal.properties)],
       hasSignal := g.hasSignal + (if Exists(g, owner) then {(owner, IdOf(owner, signal))} else {}),
       about := g.about + AboutEdges(g, owner, [signal]))
  }

  lemma {:induction false} WithSignalsSnoc(g: Graph, owner: Owner, signals: seq<Signal>, last: Signal)
    ensures WithSignals(g, owner, signals + [last]) == WithSignal(WithSignals(g, owner, signals), owner, last)
  {
    var before := WithSignals(g, owner, signals);
    NodesSnoc(owner, signals, last);
    MergeOne(g.signals, NodesOf(owner, signals), IdOf(owner, last), SignalNode(owner, last.digest, last.properties));
    HasSnoc(g, owner, signals, last);
    UniteOne(g.hasSignal, HasEdges(g, owner, signals), if Exists(g, owner) then {(owner, IdOf(owner, last))} else {});
    AboutSnoc(g, owner, signals, last);
    UniteOne(g.about, AboutEdges(g, owner, signals), AboutEdges(g, owner, [last]));
    EdgesAreStable(g, before, owner, [last]);
  }

  lemma {:induction false} NoSignals(g: Graph, owner: Owner)
    ensures WithSignals(g, owner, []) == g
  {
  }

  lemma {:induction false} DocumentSignalsAreAboutNothing(g: Graph, owner: Owner, signals: seq<Signal>)
    requires owner.DocumentOwner?
    ensures AboutEdges(g, owner, signals) == {}
  {
  }

  class Session {
    var graph: Graph

    constructor ()
      ensures graph == EMPTY
    {
      graph := EMPTY;
    }

    // Folder memberships

    method MergeFolderReference(f: Key)
      modifies this
      ensures graph == old(graph).(folders := WithReference(old(graph).folders, f))
    {
      if f !in graph.folders {
        graph := graph.(folders := graph.folders[f := Folder(Reference, "")]);
      }
    }

    method LinkDocumentToFolder(d: Key, id: string)
      requires d in graph.documents
      modifies this
      ensures graph == WithLink(old(graph), d, id)
    {
      var f := Key(d.tenant, id);
      MergeFolderReference(f);
      if Live(graph.folders, f) {
        graph := graph.(inFolder := graph.inFolder + {(d, f)});
      }
    }

    method ReplaceDocumentFolderRelations(d: Key, ids: seq<string>)
      modifies this
      ensures graph == ReplaceFolderRelations(old(graph), d, ids)
    {
      if d !in graph.documents {
        graph := graph.(documents := graph.documents[d := ""]);
      }
      graph := graph.(inFolder := (set e | e in graph.inFolder && e.0 != d));
      ghost var start := graph;
      NoLinks(start, d);
      assert ids[..0] == [];
      for i := 0 to |ids|
        invariant d in graph.documents && graph == WithLinks(start, d, ids[..i])
      {
        LinkDocumentToFolder(d, ids[i]);
        assert ids[..i + 1] == ids[..i] + [ids[i]];
        WithLinksSnoc(start, d, ids[..i], ids[i]);
      }
      assert ids[..|ids|] == ids;
    }

    // Folders

    method MergeFolder(f: Key, properties: string)
      modifies this
      ensures graph == old(graph).(folders := old(graph).folders[f := Folder(Active, properties)])
    {
      graph := graph.(folders := graph.folders[f := Folder(Active, properties)]);
    }

    method DeleteFolderParentEdges(f: Key)
      modifies this
      ensures graph == old(graph).(childOf := (set e | e in old(graph).childOf && e.0 != f))
    {
      graph := graph.(childOf := (set e | e in graph.childOf && e.0 != f));
    }

    method ReplaceFolderProjection(f: Key, properties: string, parent: Option<string>)
      modifies this
      ensures graph == ReplaceFolder(old(graph), f, properties, parent)
    {
      MergeFolder(f, properties);
      DeleteFolderParentEdges(f);
      if parent.None? {
        return;
      }
      var p := Key(f.tenant, parent.value);
      MergeFolderReference(p);
      if Live(graph.folders, p) {
        graph := graph.(childOf := graph.childOf + {(f, p)});
      }
    }

    method DeleteFolderProjection(f: Key)
      modifies this
      ensures graph == DeleteFolder(old(graph), f)
    {
      if f !in graph.folders {
        return;
      }
      graph := graph.(folders := graph.folders[f := graph.folders[f].(state := Deleted)]);
      graph := graph.(childOf := (set e | e in graph.childOf && e.0 != f));
      graph := graph.(childOf := (set e | e in graph.childOf && e.1 != f));
      graph := graph.(inFolder := (set e | e in graph.inFolder && e.1 != f));
      DetachDelete((set e | e in graph.hasSignal && e.0 == FolderOwner(f) && e.1.FolderSignal? :: e.1));
      assert graph.childOf == DeleteFolder(old(graph), f).childOf;
    }

    // Signals

    method DetachDelete(gone: set<SignalId>)
      modifies this
      ensures graph == Detached(old(graph), gone)
    {
      graph := graph.(hasSignal := (set e | e in graph.hasSignal && e.1 !in gone));
      graph := graph.(about := (set e | e in graph.about && e.0 !in gone));
      graph := graph.(signals := graph.signals - gone);
    }

    method MergeSignalNode(owner: Owner, signal: Signal)
      modifies this
      ensures graph == old(graph).(signals :=
                old(graph).signals[IdOf(owner, signal) := SignalNode(owner, signal.digest, signal.properties)])
    {
      var node := SignalNode(owner, signal.digest, signal.properties);
      graph := graph.(signals := graph.signals[IdOf(owner, signal) := node]);
    }

    method LinkOwnerToSignal(owner: Owner, signal: Signal)
      requires IdOf(owner, signal) in graph.signals
      modifies this
      ensures graph == old(graph).(hasSignal := old(graph).hasSignal
                                  + if Exists(old(graph), owner) then {(owner, IdOf(owner, signal))} else {})
    {
      if Exists(graph, owner) {
        graph := graph.(hasSignal := graph.hasSignal + {(owner, IdOf(owner, signal))});
      }
    }

    method LinkFolderSignalToRelatedDocument(owner: Owner, signal: Signal)
      requires IdOf(owner, signal) in graph.signals && owner.FolderOwner?
      modifies this
      ensures graph == old(graph).(about := old(graph).about + AboutEdges(old(graph), owner, [signal]))
    {
      assert [signal][0] == signal;
      if signal.related.None? {
        assert AboutEdges(graph, owner, [signal]) == {};
        assert graph.about + {} == graph.about;
        return;
      }
      var d := Key(owner.key.tenant, signal.related.value);
      if d in graph.documents {
        assert AboutEdges(graph, owner, [signal]) == {(IdOf(owner, signal), d)};
        graph := graph.(about := graph.about + {(IdOf(owner, signal), d)});
      } else {
        assert AboutEdges(graph, owner, [signal]) == {};
      }
    }

    method MergeSignal(owner: Owner, signal: Signal)
      modifies this
      ensures graph == WithSignal(old(graph), owner, signal)
    {
      MergeSignalNode(owner, signal);
      LinkOwnerToSignal(owner, signal);
      EdgesAreStable(old(graph), graph, owner, [signal]);
      if owner.FolderOwner? {
        LinkFolderSignalToRelatedDocument(owner, signal);
      } else {
        DocumentSignalsAreAboutNothing(old(graph), owner, [signal]);
      }
    }

    method MergeSignals(owner: Owner, signals: seq<Signal>)
      modifies this
      ensures graph == WithSignals(old(graph), owner, signals)
    {
      NoSignals(graph, owner);
      assert signals[..0] == [];
      for i := 0 to |signals|
        invariant graph == WithSignals(old(graph), owner, signals[..i])
      {
        MergeSignal(owner, signals[i]);
        assert signals[..i + 1] == signals[..i] + [signals[i]];
        WithSignalsSnoc(old(graph), owner, signals[..i], signals[i]);
      }
      assert signals[..|signals|] == signals;
    }

    method ReplaceFolderSignalProjection(f: Key, signals: seq<Signal>)
      modifies this
      ensures graph == ReplaceSignals(old(graph), FolderOwner(f), signals)
    {
      DetachDelete(Owned(graph, FolderOwner(f)));
      MergeSignals(FolderOwner(f), signals);
    }

    method ReplaceDocumentProjection(d: Key, properties: string, signals: seq<Signal>)
      modifies this
      ensures graph == ReplaceDocument(old(graph), d, properties, signals)
    {
      graph := graph.(documents := graph.documents[d := properties]);
      graph := graph.(hasSignal := (set e | e in graph.hasSignal && e.0 != DocumentOwner(d)));
      DetachDelete(Owned(graph, DocumentOwner(d)));
      MergeSignals(DocumentOwner(d), signals);
    }
  }
}
