/**
 What is in the graph after a run, told from the commands of the run alone: a node or an edge is there
 exactly when some command made it and no later one took it away.
 */
module GraphHistory {
  import opened Common
  import opened GraphOutcomes
  import opened GraphProjection

  type Test = (Graph, Command) -> bool

  /** Command `i` passes the first test in the graph it is applied to, and no later command passes the second. */
  ghost predicate Since(commands: seq<Command>, makes: Test, drops: Test, i: nat)
    requires i < |commands|
  {
    && makes(Run(EMPTY, commands[..i]), commands[i])
    && forall j | i < j < |commands| :: !drops(Run(EMPTY, commands[..j]), commands[j])
  }

  ghost predicate Made(commands: seq<Command>, makes: Test, drops: Test) {
    exists i | 0 <= i < |commands| :: Since(commands, makes, drops, i)
  }

  lemma {:induction false} SinceMore(init: seq<Command>, c: Command, makes: Test, drops: Test, i: nat)
    requires i <= |init|
    ensures Since(init + [c], makes, drops, i) <==>
            if i == |init| then makes(Run(EMPTY, init), c)
            else Since(init, makes, drops, i) && !drops(Run(EMPTY, init), c)
  {
    var commands := init + [c];
    forall j | 0 <= j <= |init| ensures commands[..j] == init[..j] {
    }
    assert init[..|init|] == init && commands[|init|] == c;
    assert forall j | 0 <= j < |init| :: commands[j] == init[j];
  }

  lemma {:induction false} MadeMore(init: seq<Command>, c: Command, makes: Test, drops: Test)
    ensures Made(init + [c], makes, drops) <==>
            makes(Run(EMPTY, init), c) || (Made(init, makes, drops) && !drops(Run(EMPTY, init), c))
  {
    forall i | 0 <= i <= |init|
      ensures Since(init + [c], makes, drops, i) <==>
              if i == |init| then makes(Run(EMPTY, init), c)
              else Since(init, makes, drops, i) && !drops(Run(EMPTY, init), c)
    {
      SinceMore(init, c, makes, drops, i);
    }
    if i :| 0 <= i < |init| && Since(init, makes, drops, i) && !drops(Run(EMPTY, init), c) {
      assert Since(init + [c], makes, drops, i);
    }
    assert Since(init + [c], makes, drops, |init|) <==> makes(Run(EMPTY, init), c);
  }

  /** In a safe graph, a command makes the test hold, or keeps it, as the other two tests say. */
  ghost predicate Tracks(holds: Graph -> bool, makes: Test, drops: Test) {
    && !holds(EMPTY)
    && forall g, c | Safe(g) :: holds(Apply(g, c)) <==> makes(g, c) || (holds(g) && !drops(g, c))
  }

  lemma {:induction false} RunIsHistory(commands: seq<Command>, holds: Graph -> bool, makes: Test, drops: Test)
    requires Tracks(holds, makes, drops)
    ensures holds(Run(EMPTY, commands)) <==> Made(commands, makes, drops)
  {
    if commands != [] {
      var n := |commands| - 1;
      var init, c := commands[..n], commands[n];
      assert commands == init + [c];
      RunSnoc(EMPTY, commands);
      ReachableGraphsAreSafe(init);
      RunIsHistory(init, holds, makes, drops);
      MadeMore(init, c, makes, drops);
    }
  }

  // Memberships

  predicate PutsInto(g: Graph, c: Command, d: Key, f: Key) {
    && c.ReplaceFolderRelationsCommand? && c.document == d
    && f.tenant == d.tenant && f.id in c.folderIds && !Tombstone(g, f)
  }

  predicate TakesOut(c: Command, d: Key, f: Key) {
    || (c.ReplaceFolderRelationsCommand? && c.document == d)
    || c == DeleteDocumentCommand(d) || c == DeleteFolderCommand(f)
  }

  ghost function Inside(d: Key, f: Key): Graph -> bool {
    (g: Graph) => (d, f) in g.inFolder
  }

  ghost function Putting(d: Key, f: Key): Test {
    (g, c) => PutsInto(g, c, d, f)
  }

  ghost function Taking(d: Key, f: Key): Test {
    (g, c) => TakesOut(c, d, f)
  }

  lemma {:induction false} MembershipStep(g: Graph, c: Command, d: Key, f: Key)
    requires Safe(g)
    ensures (d, f) in Apply(g, c).inFolder <==> PutsInto(g, c, d, f) || ((d, f) in g.inFolder && !TakesOut(c, d, f))
  {
    match c
    case ReplaceFolderRelationsCommand(x, ids) => MembershipsAsCommanded(g, x, ids, f);
    case _ =>
  }

  /**
   A document is in a folder exactly when its last list of folders had it, at a time when the folder was
   not deleted, and neither was deleted since.
   */
  lemma {:induction false} MembershipsOfRun(commands: seq<Command>, d: Key, f: Key)
    ensures (d, f) in Run(EMPTY, commands).inFolder
       <==> Made(commands, Putting(d, f), Taking(d, f))
  {
    forall g, c | Safe(g)
      ensures (d, f) in Apply(g, c).inFolder <==> PutsInto(g, c, d, f) || ((d, f) in g.inFolder && !TakesOut(c, d, f))
    {
      MembershipStep(g, c, d, f);
    }
    RunIsHistory(commands, Inside(d, f), Putting(d, f), Taking(d, f));
  }

  // Parents

  predicate PutsUnder(g: Graph, c: Command, f: Key, p: Key) {
    && c.ReplaceFolderCommand? && c.folder == f && c.parent == Some(p.id) && p.tenant == f.tenant
    && (p == f || !Tombstone(g, p))
  }

  predicate MovesAway(c: Command, f: Key, p: Key) {
    (c.ReplaceFolderCommand? && c.folder == f) || c == DeleteFolderCommand(f) || c == DeleteFolderCommand(p)
  }

  ghost function Below(f: Key, p: Key): Graph -> bool {
    (g: Graph) => (f, p) in g.childOf
  }

  ghost function PuttingUnder(f: Key, p: Key): Test {
    (g, c) => PutsUnder(g, c, f, p)
  }

  ghost function Moving(f: Key, p: Key): Test {
    (g, c) => MovesAway(c, f, p)
  }

  lemma {:induction false} ParentStep(g: Graph, c: Command, f: Key, p: Key)
    requires Safe(g)
    ensures (f, p) in Apply(g, c).childOf <==> PutsUnder(g, c, f, p) || ((f, p) in g.childOf && !MovesAway(c, f, p))
  {
    match c
    case ReplaceFolderCommand(x, properties, parent) => FolderAsCommanded(g, x, properties, parent, p);
    case _ =>
  }

  /** A folder has the parent it was last replaced with, if that was not deleted then, and neither was since. */
  lemma {:induction false} ParentsOfRun(commands: seq<Command>, f: Key, p: Key)
    ensures (f, p) in Run(EMPTY, commands).childOf
       <==> Made(commands, PuttingUnder(f, p), Moving(f, p))
  {
    forall g, c | Safe(g)
      ensures (f, p) in Apply(g, c).childOf <==> PutsUnder(g, c, f, p) || ((f, p) in g.childOf && !MovesAway(c, f, p))
    {
      ParentStep(g, c, f, p);
    }
    RunIsHistory(commands, Below(f, p), PuttingUnder(f, p), Moving(f, p));
  }

  // Nodes of documents and folders

  predicate SetsDocument(g: Graph, c: Command, d: Key, properties: string) {
    || (c.ReplaceDocumentCommand? && c.document == d && c.properties == properties)
    || (c.ReplaceFolderRelationsCommand? && c.document == d && d !in g.documents && properties == "")
  }

  predicate ResetsDocument(c: Command, d: Key) {
    (c.ReplaceDocumentCommand? && c.document == d) || c == DeleteDocumentCommand(d)
  }

  ghost function DocumentWith(d: Key, properties: string): Graph -> bool {
    (g: Graph) => d in g.documents && g.documents[d] == properties
  }

  ghost function SettingDocument(d: Key, properties: string): Test {
    (g, c) => SetsDocument(g, c, d, properties)
  }

  ghost function ResettingDocument(d: Key): Test {
    (g, c) => ResetsDocument(c, d)
  }

  lemma {:induction false} DocumentNodeStep(g: Graph, c: Command, d: Key, properties: string)
    ensures d in Apply(g, c).documents && Apply(g, c).documents[d] == properties <==>
            || SetsDocument(g, c, d, properties)
            || (d in g.documents && g.documents[d] == properties && !ResetsDocument(c, d))
  {
  }

  /** A document has the properties it was last replaced with, or none if it was only mentioned. */
  lemma {:induction false} DocumentPropertiesOfRun(commands: seq<Command>, d: Key, properties: string)
    ensures var g := Run(EMPTY, commands);
            d in g.documents && g.documents[d] == properties
            <==> Made(commands, SettingDocument(d, properties), ResettingDocument(d))
  {
    forall g, c | Safe(g)
      ensures d in Apply(g, c).documents && Apply(g, c).documents[d] == properties <==>
              || SetsDocument(g, c, d, properties)
              || (d in g.documents && g.documents[d] == properties && !ResetsDocument(c, d))
    {
      DocumentNodeStep(g, c, d, properties);
    }
    RunIsHistory(commands, DocumentWith(d, properties),
                 SettingDocument(d, properties), ResettingDocument(d));
  }

  predicate SetsFolder(c: Command, f: Key, properties: string) {
    c.ReplaceFolderCommand? && c.folder == f && c.properties == properties
  }

  predicate ResetsFolder(c: Command, f: Key) {
    (c.ReplaceFolderCommand? && c.folder == f) || c == DeleteFolderCommand(f)
  }

  predicate ActiveWith(g: Graph, f: Key, properties: string) {
    f in g.folders && g.folders[f] == Folder(Active, properties)
  }

  ghost function FolderWith(f: Key, properties: string): Graph -> bool {
    (g: Graph) => ActiveWith(g, f, properties)
  }

  ghost function SettingFolder(f: Key, properties: string): Test {
    (g, c) => SetsFolder(c, f, properties)
  }

  ghost function ResettingFolder(f: Key): Test {
    (g, c) => ResetsFolder(c, f)
  }

  lemma {:induction false} FolderNodeStep(g: Graph, c: Command, f: Key, properties: string)
    ensures ActiveWith(Apply(g, c), f, properties) <==>
            SetsFolder(c, f, properties) || (ActiveWith(g, f, properties) && !ResetsFolder(c, f))
  {
    match c
    case ReplaceFolderRelationsCommand(d, ids) => ReferencesAdded(g.folders, d.tenant, ids);
    case _ =>
  }

  /** A folder is active with the properties it was last replaced with, until it is deleted. */
  lemma {:induction false} FolderPropertiesOfRun(commands: seq<Command>, f: Key, properties: string)
    ensures ActiveWith(Run(EMPTY, commands), f, properties)
       <==> Made(commands, SettingFolder(f, properties), ResettingFolder(f))
  {
    forall g, c | Safe(g)
      ensures ActiveWith(Apply(g, c), f, properties) <==>
              SetsFolder(c, f, properties) || (ActiveWith(g, f, properties) && !ResetsFolder(c, f))
    {
      FolderNodeStep(g, c, f, properties);
    }
    RunIsHistory(commands, FolderWith(f, properties),
                 SettingFolder(f, properties), ResettingFolder(f));
  }

  // Signals

  /** The owner whose signals a command stores. */
  function StoresFor(c: Command): Option<Owner> {
    match c
    case ReplaceDocumentCommand(d, _, _) => Some(DocumentOwner(d))
    case ReplaceFolderSignalsCommand(f, _) => Some(FolderOwner(f))
    case _ => None
  }

  /** Signal `i` of the command has the id `s`. */
  predicate Sends(c: Command, s: SignalId, i: nat)
    requires StoresFor(c).Some? && i < |c.signals|
  {
    match c
    case ReplaceDocumentCommand(d, _, signals) => s == DocumentSignal(Key(d.tenant, signals[i].id))
    case ReplaceFolderSignalsCommand(f, signals) => s == FolderSignal(Key(f.tenant, signals[i].id))
    case _ => false
  }

  /** The last signal of the command with this id is the given one. */
  ghost predicate StoresLast(c: Command, s: SignalId, node: SignalNode) {
    && StoresFor(c).Some?
    && exists i | 0 <= i < |c.signals| ::
         && Sends(c, s, i) && (forall j | i < j < |c.signals| :: !Sends(c, s, j))
         && node == SignalNode(StoresFor(c).value, c.signals[i].digest, c.signals[i].properties)
  }

  ghost predicate StoresSome(c: Command, s: SignalId) {
    StoresFor(c).Some? && exists i | 0 <= i < |c.signals| :: Sends(c, s, i)
  }

  /** The signals of its owner are replaced, deleted or out of date, or its folder is deleted. */
  predicate Deletes(g: Graph, c: Command, s: SignalId) {
    && s in g.signals
    && match c
       case ReplaceDocumentCommand(d, _, _) => g.signals[s].owner == DocumentOwner(d)
       case ReplaceFolderSignalsCommand(f, _) => g.signals[s].owner == FolderOwner(f)
       case DeleteFolderSignalsCommand(f) => g.signals[s].owner == FolderOwner(f)
       case DeleteStaleFolderSignalsCommand(f, digest) =>
         g.signals[s].owner == FolderOwner(f) && g.signals[s].digest != digest
       case DeleteFolderCommand(f) => s.FolderSignal? && f in g.folders && (FolderOwner(f), s) in g.hasSignal
       case _ => false
  }

  predicate HasNode(g: Graph, s: SignalId, node: SignalNode) {
    s in g.signals && g.signals[s] == node
  }

  ghost function Node(s: SignalId, node: SignalNode): Graph -> bool {
    (g: Graph) => HasNode(g, s, node)
  }

  ghost function Storing(s: SignalId, node: SignalNode): Test {
    (g, c) => StoresLast(c, s, node)
  }

  ghost function Dropping(s: SignalId): Test {
    (g, c) => StoresSome(c, s) || Deletes(g, c, s)
  }

  lemma {:induction false} SentIds(owner: Owner, c: Command, s: SignalId)
    requires StoresFor(c) == Some(owner)
    ensures s in IdsOf(owner, c.signals) <==> StoresSome(c, s)
    ensures forall i | 0 <= i < |c.signals| :: Sends(c, s, i) <==> s == IdOf(owner, c.signals[i])
  {
    assert forall i | 0 <= i < |c.signals| :: Sends(c, s, i) <==> s == IdOf(owner, c.signals[i]);
    if s in IdsOf(owner, c.signals) {
      var i :| 0 <= i < |c.signals| && s == IdOf(owner, c.signals[i]);
      assert Sends(c, s, i);
    }
  }

  lemma {:induction false} LastSent(owner: Owner, c: Command, s: SignalId, node: SignalNode)
    requires StoresFor(c) == Some(owner)
    ensures s in NodesOf(owner, c.signals) && NodesOf(owner, c.signals)[s] == node <==> StoresLast(c, s, node)
  {
    SentIds(owner, c, s);
    forall i | 0 <= i < |c.signals| && Sends(c, s, i) && (forall j | i < j < |c.signals| :: !Sends(c, s, j))
      ensures s in NodesOf(owner, c.signals)
      ensures NodesOf(owner, c.signals)[s] == SignalNode(owner, c.signals[i].digest, c.signals[i].properties)
    {
      assert forall j | i < j < |c.signals| :: c.signals[j].id == c.signals[i].id ==> Sends(c, s, j);
      LastSignalStays(owner, c.signals, i);
    }
    if s in NodesOf(owner, c.signals) {
      var i := LastWithId(owner, c.signals, s);
      forall j | i < j < |c.signals| ensures !Sends(c, s, j) {
        assert c.signals[j].id != c.signals[i].id;
      }
      assert Sends(c, s, i);
    }
  }

  lemma {:induction false} StoredStep(g: Graph, owner: Owner, c: Command, s: SignalId, node: SignalNode)
    requires StoresFor(c) == Some(owner)
    ensures HasNode(ReplaceSignals(g, owner, c.signals), s, node) <==>
            StoresLast(c, s, node)
            || (HasNode(g, s, node) && !StoresSome(c, s) && g.signals[s].owner != owner)
  {
    ReplacedParts(g, owner, c.signals);
    LastSent(owner, c, s, node);
    SentIds(owner, c, s);
  }

  lemma {:induction false} NodeStep(g: Graph, c: Command, s: SignalId, node: SignalNode)
    ensures HasNode(Apply(g, c), s, node) <==>
            StoresLast(c, s, node) || (HasNode(g, s, node) && !(StoresSome(c, s) || Deletes(g, c, s)))
  {
    match c
    case ReplaceDocumentCommand(d, properties, signals) =>
      StoredStep(g.(documents := g.documents[d := properties]), DocumentOwner(d), c, s, node);
    case ReplaceFolderSignalsCommand(f, signals) => StoredStep(g, FolderOwner(f), c, s, node);
    case _ =>
  }

  /** A signal node is as some command stored it last, and no later one stored or deleted it. */
  lemma {:induction false} SignalsOfRun(commands: seq<Command>, s: SignalId, node: SignalNode)
    ensures HasNode(Run(EMPTY, commands), s, node) <==> Made(commands, Storing(s, node), Dropping(s))
  {
    forall g, c | Safe(g)
      ensures HasNode(Apply(g, c), s, node) <==>
              StoresLast(c, s, node) || (HasNode(g, s, node) && !(StoresSome(c, s) || Deletes(g, c, s)))
    {
      NodeStep(g, c, s, node);
    }
    RunIsHistory(commands, Node(s, node), Storing(s, node), Dropping(s));
  }

  // Edges of signals

  /** The command stores the signal for an owner that exists by then. */
  ghost predicate Links(g: Graph, c: Command, owner: Owner, s: SignalId) {
    && StoresFor(c) == Some(owner) && StoresSome(c, s)
    && (owner.DocumentOwner? || owner.key in g.folders)
  }

  /** The signal goes, or the document that owns it is replaced or deleted. */
  predicate Unlinks(g: Graph, c: Command, owner: Owner, s: SignalId) {
    || Deletes(g, c, s)
    || (owner.DocumentOwner? && c.ReplaceDocumentCommand? && c.document == owner.key)
    || (owner.DocumentOwner? && c == DeleteDocumentCommand(owner.key))
  }

  ghost function Linked(owner: Owner, s: SignalId): Graph -> bool {
    (g: Graph) => (owner, s) in g.hasSignal
  }

  ghost function Linking(owner: Owner, s: SignalId): Test {
    (g, c) => Links(g, c, owner, s)
  }

  ghost function Unlinking(owner: Owner, s: SignalId): Test {
    (g, c) => Unlinks(g, c, owner, s)
  }

  lemma {:induction false} StoredLinks(g: Graph, storer: Owner, c: Command, owner: Owner, s: SignalId)
    requires StoresFor(c) == Some(storer)
    ensures (owner, s) in ReplaceSignals(g, storer, c.signals).hasSignal <==>
            || (owner == storer && Exists(g, storer) && StoresSome(c, s))
            || ((owner, s) in g.hasSignal && !(s in g.signals && g.signals[s].owner == storer)
                && !(storer.DocumentOwner? && owner == storer))
  {
    ReplacedParts(g, storer, c.signals);
    SentIds(storer, c, s);
  }

  lemma {:induction false} LinkStep(g: Graph, c: Command, owner: Owner, s: SignalId)
    requires Safe(g)
    ensures (owner, s) in Apply(g, c).hasSignal <==>
            Links(g, c, owner, s) || ((owner, s) in g.hasSignal && !Unlinks(g, c, owner, s))
  {
    match c
    case ReplaceDocumentCommand(d, properties, signals) =>
      StoredLinks(g.(documents := g.documents[d := properties]), DocumentOwner(d), c, owner, s);
    case ReplaceFolderSignalsCommand(f, signals) => StoredLinks(g, FolderOwner(f), c, owner, s);
    case _ =>
  }

  /** A signal hangs on an owner exactly when it was stored for that owner while it existed, and neither went since. */
  lemma {:induction false} LinksOfRun(commands: seq<Command>, owner: Owner, s: SignalId)
    ensures (owner, s) in Run(EMPTY, commands).hasSignal <==> Made(commands, Linking(owner, s), Unlinking(owner, s))
  {
    forall g, c | Safe(g)
      ensures (owner, s) in Apply(g, c).hasSignal <==>
              Links(g, c, owner, s) || ((owner, s) in g.hasSignal && !Unlinks(g, c, owner, s))
    {
      LinkStep(g, c, owner, s);
    }
    RunIsHistory(commands, Linked(owner, s), Linking(owner, s), Unlinking(owner, s));
  }

  /** The command stores a folder signal about a document that exists by then. */
  ghost predicate Relates(g: Graph, c: Command, s: SignalId, d: Key) {
    && c.ReplaceFolderSignalsCommand? && d in g.documents && d.tenant == c.folder.tenant
    && exists i | 0 <= i < |c.signals| :: Sends(c, s, i) && c.signals[i].related == Some(d.id)
  }

  predicate Unrelates(g: Graph, c: Command, s: SignalId, d: Key) {
    Deletes(g, c, s) || c == DeleteDocumentCommand(d)
  }

  ghost function Related(s: SignalId, d: Key): Graph -> bool {
    (g: Graph) => (s, d) in g.about
  }

  ghost function Relating(s: SignalId, d: Key): Test {
    (g, c) => Relates(g, c, s, d)
  }

  ghost function Unrelating(s: SignalId, d: Key): Test {
    (g, c) => Unrelates(g, c, s, d)
  }

  lemma {:induction false} StoredAbout(g: Graph, f: Key, c: Command, s: SignalId, d: Key)
    requires c.ReplaceFolderSignalsCommand? && c.folder == f
    ensures (s, d) in AboutEdges(g, FolderOwner(f), c.signals) <==> Relates(g, c, s, d)
  {
    var owner := FolderOwner(f);
    if Relates(g, c, s, d) {
      var i :| 0 <= i < |c.signals| && Sends(c, s, i) && c.signals[i].related == Some(d.id);
      assert (IdOf(owner, c.signals[i]), Key(f.tenant, c.signals[i].related.value)) == (s, d);
    }
  }

  lemma {:induction false} AboutStep(g: Graph, c: Command, s: SignalId, d: Key)
    requires Safe(g)
    ensures (s, d) in Apply(g, c).about <==>
            Relates(g, c, s, d) || ((s, d) in g.about && !Unrelates(g, c, s, d))
  {
    match c
    case ReplaceDocumentCommand(x, properties, signals) =>
      ReplacedParts(g.(documents := g.documents[x := properties]), DocumentOwner(x), signals);
    case ReplaceFolderSignalsCommand(f, signals) =>
      ReplacedParts(g, FolderOwner(f), signals);
      StoredAbout(g, f, c, s, d);
    case _ =>
  }

  /** A folder signal points at a document exactly when it was stored about it, and neither went since. */
  lemma {:induction false} RelationsOfRun(commands: seq<Command>, s: SignalId, d: Key)
    ensures (s, d) in Run(EMPTY, commands).about <==> Made(commands, Relating(s, d), Unrelating(s, d))
  {
    forall g, c | Safe(g)
      ensures (s, d) in Apply(g, c).about <==> Relates(g, c, s, d) || ((s, d) in g.about && !Unrelates(g, c, s, d))
    {
      AboutStep(g, c, s, d);
    }
    RunIsHistory(commands, Related(s, d), Relating(s, d), Unrelating(s, d));
  }
}
