/**
 The graph of documents, folders and their signals, and the commands that rewrite it. A folder node
 can be active, a mere reference (something points at it), or deleted (its node stays as a tombstone).
 */
module GraphProjection {
  import opened Common

  datatype Key = Key(tenant: string, id: string)

  datatype FolderState = Active | Reference | Deleted

  datatype Folder = Folder(state: FolderState, properties: string)

  /** The node a signal belongs to. Document signals and folder signals are different node labels. */
  datatype Owner = DocumentOwner(key: Key) | FolderOwner(key: Key)

  datatype SignalId = DocumentSignal(key: Key) | FolderSignal(key: Key)

  datatype SignalNode = SignalNode(owner: Owner, digest: string, properties: string)

  /** A signal of a command, with the document a folder signal is about. */
  datatype Signal = Signal(id: string, digest: string, properties: string, related: Option<string>)

  datatype Graph = Graph(
    documents: map<Key, string>,
    folders: map<Key, Folder>,
    inFolder: set<(Key, Key)>,
    childOf: set<(Key, Key)>,
    signals: map<SignalId, SignalNode>,
    hasSignal: set<(Owner, SignalId)>,
    about: set<(SignalId, Key)>)

  predicate Exists(g: Graph, owner: Owner) {
    match owner
    case DocumentOwner(d) => d in g.documents
    case FolderOwner(f) => f in g.folders
  }

  predicate Live(folders: map<Key, Folder>, f: Key) {
    f in folders && folders[f].state != Deleted
  }

  /** `MERGE ... ON CREATE`: a folder that something points at exists afterwards, at least as a reference. */
  function WithReference(folders: map<Key, Folder>, f: Key): map<Key, Folder> {
    if f in folders then folders else folders[f := Folder(Reference, "")]
  }

  // Folder memberships

  function WithReferences(folders: map<Key, Folder>, tenant: string, ids: seq<string>): map<Key, Folder> {
    if ids == [] then folders
    else WithReference(WithReferences(folders, tenant, ids[..|ids| - 1]), Key(tenant, ids[|ids| - 1]))
  }

  function LiveMemberships(folders: map<Key, Folder>, d: Key, ids: seq<string>): set<(Key, Key)> {
    set i | 0 <= i < |ids| && !(Key(d.tenant, ids[i]) in folders && folders[Key(d.tenant, ids[i])].state == Deleted)
      :: (d, Key(d.tenant, ids[i]))
  }

  function ReplaceFolderRelations(g: Graph, d: Key, ids: seq<string>): Graph {
    g.(documents := if d in g.documents then g.documents else g.documents[d := ""],
       folders := WithReferences(g.folders, d.tenant, ids),
       inFolder := (set e | e in g.inFolder && e.0 != d) + LiveMemberships(g.folders, d, ids))
  }

  // Folders

  function ReplaceFolder(g: Graph, f: Key, properties: string, parent: Option<string>): Graph {
    var folders := g.folders[f := Folder(Active, properties)];
    var childOf := set e | e in g.childOf && e.0 != f;
    if parent.None? then g.(folders := folders, childOf := childOf)
    else
      var p := Key(f.tenant, parent.value);
      var linked := WithReference(folders, p);
      g.(folders := linked, childOf := if Live(linked, p) then childOf + {(f, p)} else childOf)
  }

  function DeleteFolder(g: Graph, f: Key): Graph {
    if f !in g.folders then g
    else
      var gone := set e | e in g.hasSignal && e.0 == FolderOwner(f) && e.1.FolderSignal? :: e.1;
      Detached(g.(folders := g.folders[f := g.folders[f].(state := Deleted)],
                  childOf := (set e | e in g.childOf && e.0 != f && e.1 != f),
                  inFolder := (set e | e in g.inFolder && e.1 != f)), gone)
  }

  // Signals

  /** `DETACH DELETE` of signal nodes. */
  function Detached(g: Graph, gone: set<SignalId>): Graph {
    g.(signals := g.signals - gone,
       hasSignal := (set e | e in g.hasSignal && e.1 !in gone),
       about := (set e | e in g.about && e.0 !in gone))
  }

  function Owned(g: Graph, owner: Owner): set<SignalId> {
    set s | s in g.signals && g.signals[s].owner == owner
  }

  function IdOf(owner: Owner, signal: Signal): SignalId {
    var key := Key(owner.key.tenant, signal.id);
    if owner.DocumentOwner? then DocumentSignal(key) else FolderSignal(key)
  }

  function IdsOf(owner: Owner, signals: seq<Signal>): set<SignalId> {
    set i | 0 <= i < |signals| :: IdOf(owner, signals[i])
  }

  /** The merged nodes: a later signal overwrites an earlier one with the same id. */
  function NodesOf(owner: Owner, signals: seq<Signal>): map<SignalId, SignalNode>
    ensures NodesOf(owner, signals).Keys == IdsOf(owner, signals)
    ensures forall s | s in NodesOf(owner, signals) :: NodesOf(owner, signals)[s].owner == owner
  {
    if signals == [] then map[]
    else
      var n := |signals| - 1;
      assert signals == signals[..n] + [signals[n]];
      IdsOfSnoc(owner, signals[..n], signals[n]);
      NodesOf(owner, signals[..n])
        [IdOf(owner, signals[n]) := SignalNode(owner, signals[n].digest, signals[n].properties)]
  }

  lemma {:induction false} IdsOfSnoc(owner: Owner, signals: seq<Signal>, last: Signal)
    ensures IdsOf(owner, signals + [last]) == IdsOf(owner, signals) + {IdOf(owner, last)}
  {
    var all := signals + [last];
    forall s | s in IdsOf(owner, signals) ensures s in IdsOf(owner, all) {
      var i :| 0 <= i < |signals| && s == IdOf(owner, signals[i]);
      assert all[i] == signals[i];
    }
    assert all[|signals|] == last;
  }

  function HasEdges(g: Graph, owner: Owner, signals: seq<Signal>): set<(Owner, SignalId)> {
    if Exists(g, owner) then set s | s in IdsOf(owner, signals) :: (owner, s) else {}
  }

  function AboutEdges(g: Graph, owner: Owner, signals: seq<Signal>): set<(SignalId, Key)> {
    set i | 0 <= i < |signals| && owner.FolderOwner? && signals[i].related.Some?
            && Key(owner.key.tenant, signals[i].related.value) in g.documents
      :: (IdOf(owner, signals[i]), Key(owner.key.tenant, signals[i].related.value))
  }

  function WithSignals(g: Graph, owner: Owner, signals: seq<Signal>): Graph {
    g.(signals := g.signals + NodesOf(owner, signals),
       hasSignal := g.hasSignal + HasEdges(g, owner, signals),
       about := g.about + AboutEdges(g, owner, signals))
  }

  /** Replacing a document's signals also drops the edges of the document itself. */
  function WithoutOwnEdges(g: Graph, owner: Owner): Graph {
    if owner.DocumentOwner? then g.(hasSignal := (set e | e in g.hasSignal && e.0 != owner)) else g
  }

  function Cleared(g: Graph, owner: Owner): Graph {
    Detached(WithoutOwnEdges(g, owner), Owned(g, owner))
  }

  function ReplaceSignals(g: Graph, owner: Owner, signals: seq<Signal>): Graph {
    WithSignals(Cleared(g, owner), owner, signals)
  }

  function ReplaceDocument(g: Graph, d: Key, properties: string, signals: seq<Signal>): Graph {
    ReplaceSignals(g.(documents := g.documents[d := properties]), DocumentOwner(d), signals)
  }

  function DeleteDocument(g: Graph, d: Key): Graph {
    g.(documents := g.documents - {d},
       inFolder := (set e | e in g.inFolder && e.0 != d),
       hasSignal := (set e | e in g.hasSignal && e.0 != DocumentOwner(d)),
       about := (set e | e in g.about && e.1 != d))
  }

  function DeleteStaleSignals(g: Graph, f: Key, digest: string): Graph {
    Detached(g, set s | s in g.signals && g.signals[s].owner == FolderOwner(f) && g.signals[s].digest != digest)
  }

  // Commands

  datatype Command =
    | ReplaceDocumentCommand(document: Key, properties: string, signals: seq<Signal>)
    | ReplaceFolderRelationsCommand(document: Key, folderIds: seq<string>)
    | ReplaceFolderCommand(folder: Key, properties: string, parent: Option<string>)
    | ReplaceFolderSignalsCommand(folder: Key, signals: seq<Signal>)
    | DeleteDocumentCommand(document: Key)
    | DeleteFolderSignalsCommand(folder: Key)
    | DeleteStaleFolderSignalsCommand(folder: Key, digest: string)
    | DeleteFolderCommand(folder: Key)

  function Apply(g: Graph, c: Command): Graph {
    match c
    case ReplaceDocumentCommand(d, properties, signals) => ReplaceDocument(g, d, properties, signals)
    case ReplaceFolderRelationsCommand(d, ids) => ReplaceFolderRelations(g, d, ids)
    case ReplaceFolderCommand(f, properties, parent) => ReplaceFolder(g, f, properties, parent)
    case ReplaceFolderSignalsCommand(f, signals) => ReplaceSignals(g, FolderOwner(f), signals)
    case DeleteDocumentCommand(d) => DeleteDocument(g, d)
    case DeleteFolderSignalsCommand(f) => Detached(g, Owned(g, FolderOwner(f)))
    case DeleteStaleFolderSignalsCommand(f, digest) => DeleteStaleSignals(g, f, digest)
    case DeleteFolderCommand(f) => DeleteFolder(g, f)
  }

  // Safety

  /**
   No membership and no parent edge touches a deleted folder, no folder has two parents, and no edge
   dangles.
   */
  ghost predicate Safe(g: Graph) {
    && (forall e | e in g.inFolder :: e.0 in g.documents && Live(g.folders, e.1))
    && (forall e | e in g.childOf :: Live(g.folders, e.0) && Live(g.folders, e.1))
    && (forall e, e' | e in g.childOf && e' in g.childOf && e.0 == e'.0 :: e == e')
    && (forall e | e in g.hasSignal :: Exists(g, e.0) && e.1 in g.signals)
    && (forall e | e in g.about :: e.0 in g.signals && e.1 in g.documents)
  }

  lemma {:induction false} ReferencesAdded(folders: map<Key, Folder>, tenant: string, ids: seq<string>)
    ensures var after := WithReferences(folders, tenant, ids);
            && (forall f | f in folders :: f in after && after[f] == folders[f])
            && (forall f | f in after && f !in folders :: after[f] == Folder(Reference, ""))
            && (forall i | 0 <= i < |ids| :: Key(tenant, ids[i]) in after)
            && (forall f | f in after :: f in folders || exists i | 0 <= i < |ids| :: f == Key(tenant, ids[i]))
  {
    if ids != [] {
      ReferencesAdded(folders, tenant, ids[..|ids| - 1]);
      assert forall i | 0 <= i < |ids| - 1 :: ids[..|ids| - 1][i] == ids[i];
    }
  }

  lemma {:induction false} ApplyKeepsSafe(g: Graph, c: Command)
    requires Safe(g)
    ensures Safe(Apply(g, c))
  {
    match c
    case ReplaceDocumentCommand(d, properties, signals) =>
      ReplaceSignalsKeepsSafe(g.(documents := g.documents[d := properties]), DocumentOwner(d), signals);
    case ReplaceFolderRelationsCommand(d, ids) => RelationsKeepSafe(g, d, ids);
    case ReplaceFolderCommand(f, properties, parent) => ReplaceFolderKeepsSafe(g, f, properties, parent);
    case ReplaceFolderSignalsCommand(f, signals) => ReplaceSignalsKeepsSafe(g, FolderOwner(f), signals);
    case DeleteFolderCommand(f) => DeleteFolderKeepsSafe(g, f);
    case _ =>
  }

  lemma {:induction false} RelationsKeepSafe(g: Graph, d: Key, ids: seq<string>)
    requires Safe(g)
    ensures Safe(ReplaceFolderRelations(g, d, ids))
  {
    ReferencesAdded(g.folders, d.tenant, ids);
  }

  lemma {:induction false} ReplaceFolderKeepsSafe(g: Graph, f: Key, properties: string, parent: Option<string>)
    requires Safe(g)
    ensures Safe(ReplaceFolder(g, f, properties, parent))
  {
    var h := ReplaceFolder(g, f, properties, parent);
    assert forall k | Live(g.folders, k) :: Live(h.folders, k);
    assert forall e | e in h.childOf :: e in g.childOf || e.0 == f;
  }

  lemma {:induction false} ReplaceSignalsKeepsSafe(g: Graph, owner: Owner, signals: seq<Signal>)
    requires Safe(g)
    ensures Safe(ReplaceSignals(g, owner, signals))
  {
    var nodes := NodesOf(owner, signals);
    forall e | e in AboutEdges(Cleared(g, owner), owner, signals) ensures e.0 in nodes {
      var i :| 0 <= i < |signals| && e.0 == IdOf(owner, signals[i]);
      assert e.0 in IdsOf(owner, signals);
    }
  }

  lemma {:induction false} DeleteFolderKeepsSafe(g: Graph, f: Key)
    requires Safe(g)
    ensures Safe(DeleteFolder(g, f))
  {
  }

  function Run(g: Graph, commands: seq<Command>): Graph
    decreases |commands|
  {
    if commands == [] then g else Run(Apply(g, commands[0]), commands[1..])
  }

  const EMPTY := Graph(map[], map[], {}, {}, map[], {}, {})

  lemma {:induction false} RunKeepsSafe(g: Graph, commands: seq<Command>)
    requires Safe(g)
    ensures Safe(Run(g, commands))
    decreases |commands|
  {
    if commands != [] {
      ApplyKeepsSafe(g, commands[0]);
      RunKeepsSafe(Apply(g, commands[0]), commands[1..]);
    }
  }

  /** Every sequence of commands leaves a safe graph. */
  lemma {:induction false} ReachableGraphsAreSafe(commands: seq<Command>)
    ensures Safe(Run(EMPTY, commands))
  {
    RunKeepsSafe(EMPTY, commands);
  }

  // Applying a command twice

  /**
   A signal of the command is stored for another owner and has an edge there that the command does not
   make itself. (The merge takes the node over and leaves that edge; clearing would remove it.)
   */
  ghost predicate TakesOver(g: Graph, owner: Owner, signals: seq<Signal>) {
    || (exists e | e in g.hasSignal ::
          e.1 in IdsOf(owner, signals) && e.1 in g.signals && g.signals[e.1].owner != owner && e.0 != owner)
    || (exists e | e in g.about ::
          && e.0 in IdsOf(owner, signals) && e.0 in g.signals && g.signals[e.0].owner != owner
          && e !in AboutEdges(g, owner, signals))
  }

  function Kept(edges: set<(Owner, SignalId)>, owner: Owner, gone: set<SignalId>): set<(Owner, SignalId)> {
    set e | e in edges && e.1 !in gone && !(owner.DocumentOwner? && e.0 == owner)
  }

  function KeptAbout(edges: set<(SignalId, Key)>, gone: set<SignalId>): set<(SignalId, Key)> {
    set e | e in edges && e.0 !in gone
  }

  lemma {:induction false} ClearedParts(g: Graph, owner: Owner)
    ensures Cleared(g, owner) == g.(signals := g.signals - Owned(g, owner),
                                    hasSignal := Kept(g.hasSignal, owner, Owned(g, owner)),
                                    about := KeptAbout(g.about, Owned(g, owner)))
  {
    assert Kept(g.hasSignal, owner, Owned(g, owner)) == Cleared(g, owner).hasSignal;
  }

  function OwnedIn(signals: map<SignalId, SignalNode>, owner: Owner): set<SignalId> {
    set s | s in signals && signals[s].owner == owner
  }

  lemma {:induction false} NodesTwice(signals: map<SignalId, SignalNode>, owner: Owner,
                                      nodes: map<SignalId, SignalNode>)
    requires forall s | s in nodes :: nodes[s].owner == owner
    ensures var once := signals - OwnedIn(signals, owner) + nodes;
            OwnedIn(once, owner) == nodes.Keys && once - nodes.Keys + nodes == once
  {
  }

  lemma {:induction false} HasTwice(edges: set<(Owner, SignalId)>, owner: Owner, gone: set<SignalId>,
                                    ids: set<SignalId>, made: set<(Owner, SignalId)>)
    requires forall e | e in made :: e.0 == owner && e.1 in ids
    ensures var once := Kept(edges, owner, gone) + made;
            Kept(once, owner, ids) + made == once <==>
              forall e | e in Kept(edges, owner, gone) && e.1 in ids :: e in made
  {
    var once := Kept(edges, owner, gone) + made;
    var twice := Kept(once, owner, ids) + made;
    assert forall e | e in Kept(edges, owner, gone) && e.1 in ids :: e in once && (e in twice ==> e in made);
    if forall e | e in Kept(edges, owner, gone) && e.1 in ids :: e in made {
      forall e ensures e in once <==> e in twice {
      }
    }
  }

  lemma {:induction false} AboutTwice(edges: set<(SignalId, Key)>, gone: set<SignalId>, ids: set<SignalId>,
                                      made: set<(SignalId, Key)>)
    requires forall e | e in made :: e.0 in ids
    ensures var once := KeptAbout(edges, gone) + made;
            KeptAbout(once, ids) + made == once <==> forall e | e in KeptAbout(edges, gone) && e.0 in ids :: e in made
  {
    var once := KeptAbout(edges, gone) + made;
    var twice := KeptAbout(once, ids) + made;
    assert forall e | e in KeptAbout(edges, gone) && e.0 in ids :: e in once && (e in twice ==> e in made);
    if forall e | e in KeptAbout(edges, gone) && e.0 in ids :: e in made {
      forall e ensures e in once <==> e in twice {
      }
    }
  }

  lemma {:induction false} EdgesAreOfCommand(g: Graph, owner: Owner, signals: seq<Signal>)
    ensures forall e | e in HasEdges(g, owner, signals) :: e.0 == owner && e.1 in IdsOf(owner, signals)
    ensures forall e | e in AboutEdges(g, owner, signals) :: e.0 in IdsOf(owner, signals)
  {
    forall e | e in AboutEdges(g, owner, signals) ensures e.0 in IdsOf(owner, signals) {
      var i :| 0 <= i < |signals| && e.0 == IdOf(owner, signals[i]);
    }
  }

  /** A command makes the same edges the second time: they depend on nodes it neither adds nor removes. */
  lemma {:induction false} EdgesAreStable(g: Graph, h: Graph, owner: Owner, signals: seq<Signal>)
    requires h.documents == g.documents && h.folders == g.folders
    ensures HasEdges(h, owner, signals) == HasEdges(g, owner, signals)
    ensures AboutEdges(h, owner, signals) == AboutEdges(g, owner, signals)
  {
  }

  lemma {:induction false} ReplacedParts(g: Graph, owner: Owner, signals: seq<Signal>)
    ensures ReplaceSignals(g, owner, signals)
         == g.(signals := g.signals - OwnedIn(g.signals, owner) + NodesOf(owner, signals),
               hasSignal := Kept(g.hasSignal, owner, OwnedIn(g.signals, owner)) + HasEdges(g, owner, signals),
               about := KeptAbout(g.about, OwnedIn(g.signals, owner)) + AboutEdges(g, owner, signals))
  {
    ClearedParts(g, owner);
    assert Owned(g, owner) == OwnedIn(g.signals, owner);
    EdgesAreStable(g, Cleared(g, owner), owner, signals);
  }

  /** Replacing signals twice is the same as once exactly when no foreign signal with foreign edges is taken over. */
  lemma {:induction false} ReplaceSignalsTwice(g: Graph, owner: Owner, signals: seq<Signal>)
    requires Safe(g)
    ensures ReplaceSignals(ReplaceSignals(g, owner, signals), owner, signals) == ReplaceSignals(g, owner, signals)
       <==> !TakesOver(g, owner, signals)
  {
    var nodes, ids, gone := NodesOf(owner, signals), IdsOf(owner, signals), OwnedIn(g.signals, owner);
    var has, about := HasEdges(g, owner, signals), AboutEdges(g, owner, signals);
    var once := ReplaceSignals(g, owner, signals);
    ReplacedParts(g, owner, signals);
    ReplacedParts(once, owner, signals);
    EdgesAreStable(g, once, owner, signals);
    EdgesAreOfCommand(g, owner, signals);
    NodesTwice(g.signals, owner, nodes);
    HasTwice(g.hasSignal, owner, gone, ids, has);
    AboutTwice(g.about, gone, ids, about);
    TakesOverParts(g, owner, signals);
  }

  lemma {:induction false} TakesOverParts(g: Graph, owner: Owner, signals: seq<Signal>)
    requires Safe(g)
    ensures var ids, gone := IdsOf(owner, signals), OwnedIn(g.signals, owner);
            !TakesOver(g, owner, signals) <==>
            && (forall e | e in Kept(g.hasSignal, owner, gone) && e.1 in ids :: e in HasEdges(g, owner, signals))
            && (forall e | e in KeptAbout(g.about, gone) && e.0 in ids :: e in AboutEdges(g, owner, signals))
  {
    var ids, gone := IdsOf(owner, signals), OwnedIn(g.signals, owner);
    forall e | e in g.hasSignal && e.1 in ids
      ensures e in Kept(g.hasSignal, owner, gone) && e !in HasEdges(g, owner, signals)
         <==> g.signals[e.1].owner != owner && e.0 != owner
    {
      assert Exists(g, e.0);
    }
  }

  lemma {:induction false} AllReferenced(folders: map<Key, Folder>, tenant: string, ids: seq<string>)
    requires forall i | 0 <= i < |ids| :: Key(tenant, ids[i]) in folders
    ensures WithReferences(folders, tenant, ids) == folders
  {
    if ids != [] {
      AllReferenced(folders, tenant, ids[..|ids| - 1]);
    }
  }

  lemma {:induction false} RelationsTwice(g: Graph, d: Key, ids: seq<string>)
    ensures ReplaceFolderRelations(ReplaceFolderRelations(g, d, ids), d, ids) == ReplaceFolderRelations(g, d, ids)
  {
    var once := ReplaceFolderRelations(g, d, ids);
    ReferencesAdded(g.folders, d.tenant, ids);
    AllReferenced(once.folders, d.tenant, ids);
    assert LiveMemberships(once.folders, d, ids) == LiveMemberships(g.folders, d, ids);
    assert forall e | e in LiveMemberships(g.folders, d, ids) :: e.0 == d;
  }

  lemma {:induction false} FolderTwice(g: Graph, f: Key, properties: string, parent: Option<string>)
    ensures ReplaceFolder(ReplaceFolder(g, f, properties, parent), f, properties, parent)
         == ReplaceFolder(g, f, properties, parent)
  {
    var once := ReplaceFolder(g, f, properties, parent);
    assert once.folders[f := Folder(Active, properties)] == once.folders;
    var kept := set e | e in g.childOf && e.0 != f;
    assert (set e | e in once.childOf && e.0 != f) == kept;
  }

  lemma {:induction false} DeleteFolderTwice(g: Graph, f: Key)
    ensures DeleteFolder(DeleteFolder(g, f), f) == DeleteFolder(g, f)
  {
    if f in g.folders {
      var once := DeleteFolder(g, f);
      var gone := set e | e in once.hasSignal && e.0 == FolderOwner(f) && e.1.FolderSignal? :: e.1;
      assert gone == {};
      assert Detached(once, gone) == once;
    }
  }

  /** Signals are replaced the same way whatever the properties of a document are. */
  lemma {:induction false} ReplacedKeepsDocuments(g: Graph, owner: Owner, signals: seq<Signal>)
    ensures ReplaceSignals(g, owner, signals).documents == g.documents
  {
  }

  lemma {:induction false} TakesOverIgnoresProperties(g: Graph, d: Key, properties: string, signals: seq<Signal>)
    ensures TakesOver(g.(documents := g.documents[d := properties]), DocumentOwner(d), signals)
       <==> TakesOver(g, DocumentOwner(d), signals)
  {
    var h := g.(documents := g.documents[d := properties]);
    assert AboutEdges(h, DocumentOwner(d), signals) == AboutEdges(g, DocumentOwner(d), signals);
  }

  lemma {:induction false} DocumentTwice(g: Graph, d: Key, properties: string, signals: seq<Signal>)
    requires Safe(g)
    ensures ReplaceDocument(ReplaceDocument(g, d, properties, signals), d, properties, signals)
         == ReplaceDocument(g, d, properties, signals)
       <==> !TakesOver(g, DocumentOwner(d), signals)
  {
    var merged := g.(documents := g.documents[d := properties]);
    var once := ReplaceSignals(merged, DocumentOwner(d), signals);
    ReplacedKeepsDocuments(merged, DocumentOwner(d), signals);
    assert once.documents[d := properties] == once.documents;
    TakesOverIgnoresProperties(g, d, properties, signals);
    ReplaceSignalsTwice(merged, DocumentOwner(d), signals);
  }

  lemma {:induction false} DeletionsTwice(g: Graph, owner: Owner, gone: set<SignalId>)
    ensures Detached(Detached(g, gone), {}) == Detached(g, gone)
    ensures gone == Owned(g, owner) ==> Owned(Detached(g, gone), owner) == {}
  {
  }

  /** Applying any command twice in a row gives the same graph as once, unless it takes signals over. */
  lemma {:induction false} ApplyTwice(g: Graph, c: Command)
    requires Safe(g)
    ensures Apply(Apply(g, c), c) == Apply(g, c) <==>
            match c
            case ReplaceDocumentCommand(d, _, signals) => !TakesOver(g, DocumentOwner(d), signals)
            case ReplaceFolderSignalsCommand(f, signals) => !TakesOver(g, FolderOwner(f), signals)
            case _ => true
  {
    match c
    case ReplaceDocumentCommand(d, properties, signals) => DocumentTwice(g, d, properties, signals);
    case ReplaceFolderRelationsCommand(d, ids) => RelationsTwice(g, d, ids);
    case ReplaceFolderCommand(f, properties, parent) => FolderTwice(g, f, properties, parent);
    case ReplaceFolderSignalsCommand(f, signals) => ReplaceSignalsTwice(g, FolderOwner(f), signals);
    case DeleteFolderCommand(f) => DeleteFolderTwice(g, f);
    case DeleteFolderSignalsCommand(f) => DeletionsTwice(g, FolderOwner(f), Owned(g, FolderOwner(f)));
    case DeleteStaleFolderSignalsCommand(f, digest) => DeleteStaleTwice(g, f, digest);
    case DeleteDocumentCommand(d) => DeleteDocumentTwice(g, d);
  }

  lemma {:induction false} DeleteStaleTwice(g: Graph, f: Key, digest: string)
    ensures DeleteStaleSignals(DeleteStaleSignals(g, f, digest), f, digest) == DeleteStaleSignals(g, f, digest)
  {
    var once := DeleteStaleSignals(g, f, digest);
    assert (set s | s in once.signals && once.signals[s].owner == FolderOwner(f) && once.signals[s].digest != digest)
        == {};
    DeletionsTwice(g, FolderOwner(f),
      (set s | s in g.signals && g.signals[s].owner == FolderOwner(f) && g.signals[s].digest != digest));
  }

  lemma {:induction false} DeleteDocumentTwice(g: Graph, d: Key)
    ensures DeleteDocument(DeleteDocument(g, d), d) == DeleteDocument(g, d)
  {
  }

  // Derived signal ids

  /** The signals that a command stores, by the owner it stores them for. */
  ghost predicate Stores(c: Command, owner: Owner, s: SignalId) {
    match c
    case ReplaceDocumentCommand(d, _, signals) => owner == DocumentOwner(d) && s in IdsOf(owner, signals)
    case ReplaceFolderSignalsCommand(f, signals) => owner == FolderOwner(f) && s in IdsOf(owner, signals)
    case _ => false
  }

  /** Signal ids are derived from their owner, among other things, so that they determine it. */
  ghost predicate Derived(c: Command, ownerOf: SignalId -> Owner) {
    forall owner, s | Stores(c, owner, s) :: ownerOf(s) == owner
  }

  ghost predicate OwnersDerived(g: Graph, ownerOf: SignalId -> Owner) {
    forall s | s in g.signals :: g.signals[s].owner == ownerOf(s)
  }

  lemma {:induction false} ReplacedOwnersDerived(g: Graph, owner: Owner, signals: seq<Signal>,
                                                 ownerOf: SignalId -> Owner)
    requires OwnersDerived(g, ownerOf) && forall s | s in IdsOf(owner, signals) :: ownerOf(s) == owner
    ensures OwnersDerived(ReplaceSignals(g, owner, signals), ownerOf)
    ensures !TakesOver(g, owner, signals)
  {
    ReplacedParts(g, owner, signals);
  }

  lemma {:induction false} ApplyKeepsOwners(g: Graph, c: Command, ownerOf: SignalId -> Owner)
    requires OwnersDerived(g, ownerOf) && Derived(c, ownerOf)
    ensures OwnersDerived(Apply(g, c), ownerOf)
    ensures c.ReplaceDocumentCommand? ==> !TakesOver(g, DocumentOwner(c.document), c.signals)
    ensures c.ReplaceFolderSignalsCommand? ==> !TakesOver(g, FolderOwner(c.folder), c.signals)
  {
    match c
    case ReplaceDocumentCommand(d, properties, signals) =>
      forall s | s in IdsOf(DocumentOwner(d), signals) ensures ownerOf(s) == DocumentOwner(d) {
        assert Stores(c, DocumentOwner(d), s);
      }
      ReplacedOwnersDerived(g, DocumentOwner(d), signals, ownerOf);
      ReplacedOwnersDerived(g.(documents := g.documents[d := properties]), DocumentOwner(d), signals, ownerOf);
    case ReplaceFolderSignalsCommand(f, signals) =>
      forall s | s in IdsOf(FolderOwner(f), signals) ensures ownerOf(s) == FolderOwner(f) {
        assert Stores(c, FolderOwner(f), s);
      }
      ReplacedOwnersDerived(g, FolderOwner(f), signals, ownerOf);
    case _ =>
  }

  lemma {:induction false} RunKeepsOwners(g: Graph, commands: seq<Command>, ownerOf: SignalId -> Owner)
    requires OwnersDerived(g, ownerOf) && forall i | 0 <= i < |commands| :: Derived(commands[i], ownerOf)
    ensures OwnersDerived(Run(g, commands), ownerOf)
    decreases |commands|
  {
    if commands != [] {
      ApplyKeepsOwners(g, commands[0], ownerOf);
      RunKeepsOwners(Apply(g, commands[0]), commands[1..], ownerOf);
    }
  }

  /**
   With signal ids that determine their owner, as the services derive them, applying any command twice
   gives the same graph as once, in every graph a run reaches.
   */
  lemma {:induction false} DerivedCommandsAreIdempotent(commands: seq<Command>, c: Command, ownerOf: SignalId -> Owner)
    requires Derived(c, ownerOf) && forall i | 0 <= i < |commands| :: Derived(commands[i], ownerOf)
    ensures var g := Run(EMPTY, commands);
            Apply(Apply(g, c), c) == Apply(g, c)
  {
    var g := Run(EMPTY, commands);
    ReachableGraphsAreSafe(commands);
    RunKeepsOwners(EMPTY, commands, ownerOf);
    ApplyKeepsOwners(g, c, ownerOf);
    ApplyTwice(g, c);
  }

  /**
   Two folders are given a signal with the same id: the second command is not idempotent. Such an id is
   not one that the services derive.
   */
  lemma {:induction false} TakingOverIsNotIdempotent(a: Key, b: Key, signal: Signal) returns (g: Graph, c: Command)
    requires a.tenant == b.tenant && a != b
    ensures g == Run(EMPTY, [ReplaceFolderCommand(a, "", None), ReplaceFolderCommand(b, "", None),
                             ReplaceFolderSignalsCommand(a, [signal])])
    ensures c == ReplaceFolderSignalsCommand(b, [signal])
    ensures Apply(Apply(g, c), c) != Apply(g, c)
  {
    var commands := [ReplaceFolderCommand(a, "", None), ReplaceFolderCommand(b, "", None),
                     ReplaceFolderSignalsCommand(a, [signal])];
    var g1 := Apply(EMPTY, commands[0]);
    var g2 := Apply(g1, commands[1]);
    g := Apply(g2, commands[2]);
    c := ReplaceFolderSignalsCommand(b, [signal]);
    assert commands[1..] == [commands[1], commands[2]] && commands[1..][1..] == [commands[2]];
    assert Run(g2, [commands[2]]) == Run(g, []) by {
      assert [commands[2]][1..] == [];
    }
    assert Run(g1, commands[1..]) == g;
    ReachableGraphsAreSafe(commands);
    var s := IdOf(FolderOwner(a), signal);
    assert [signal][0] == signal;
    assert s in IdsOf(FolderOwner(a), [signal]) && s in IdsOf(FolderOwner(b), [signal]);
    assert (FolderOwner(a), s) in g.hasSignal;
    assert g.signals[s].owner == FolderOwner(a);
    ApplyTwice(g, c);
  }
}
