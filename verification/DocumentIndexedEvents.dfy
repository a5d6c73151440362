/**
 The event that carries an indexed document: how the producer builds it and how the consumer decodes it.
 The names of payload fields are constructors; SHA-256 and the input digest are parameters.
 */
module DocumentIndexedEvents {
  import opened Common
  import DocumentChunker
  import opened Text

  datatype Field =
    | Tenant | DocumentType | DocumentId | SourceVersion | ContentDigest | ContentSizeBytes | Title | CreatedAt
    | UpdatedAt | Metadata | IndexInputDigest | SignalInputDigest | GenerationVersion | SourceInputDigest
    | VectorInputDigest | ChunkId | ChunkIndex | ChunkingVersion | SearchText | SourceStartOffset | SourceEndOffset
    | EmbeddingModel | EmbeddingVersion | IndexSchemaVersion | SignalId | SignalType | SignalKey | TextField
    | Attributes | Evidence | Confidence | ExtractorName | ExtractorVersion | GenerationModel | Quote | StartOffset
    | EndOffset | SourceMetadata | SourceDocument | Chunks | Profile | Signals | Named(name: string)

  type Object = map<Field, Json>

  datatype Json =
    | Null
    | Flag(flag: bool)
    | Whole(whole: int)
    | Decimal(decimal: real)
    | Text(text: string)
    | List(items: seq<Json>)
    | Dict(fields: map<Field, Json>)

  // Entities

  /** The version of a document that a document, a chunk or a signal is of. */
  datatype Identity = Identity(tenant: string, documentType: Option<string>, documentId: string, version: string)

  datatype Document = Document(
    identity: Identity, title: string, body: string, createdAt: string, updatedAt: string, metadata: Object)

  datatype DocumentState = DocumentState(
    identity: Identity, title: string, createdAt: string, updatedAt: string, contentDigest: string, contentSize: int,
    metadata: Object)

  datatype Place = Place(index: int, startOffset: int, endOffset: int)

  datatype Chunk = Chunk(
    identity: Identity, indexInputDigest: string, createdAt: string, updatedAt: string, id: string, place: Place,
    text: string, metadata: Object)

  datatype ChunkDigests = ChunkDigests(content: string, sourceInput: string, vectorInput: string)

  datatype ChunkProjection = ChunkProjection(
    identity: Identity, digests: ChunkDigests, createdAt: string, updatedAt: string, id: string, place: Place,
    text: string, textHash: string, embedding: EmbeddingSpec, metadata: Object)

  datatype EmbeddingSpec = EmbeddingSpec(model: string, version: string, schemaVersion: string)

  datatype IndexState = IndexState(
    documentId: string, indexInputDigest: string, signalInputDigest: string, generationVersion: string)

  datatype SignalKind = Summary | Concept | Entity | Issue | Commitment | Claim

  datatype SignalEvidence = SignalEvidence(
    chunkId: string, quote: string, startOffset: Option<int>, endOffset: Option<int>, metadata: Object)

  datatype Signal = Signal(
    id: string, identity: Identity, signalInputDigest: string, generationVersion: string, kind: SignalKind,
    key: string, text: string, attributes: Object, evidence: seq<SignalEvidence>, confidence: Option<real>,
    extractor: Extractor, metadata: Object)

  datatype Extractor = Extractor(name: string, version: string, model: Option<string>)

  datatype EventType =
    | DocumentIndexed | DocumentDeleted | FolderRelationsIndexed | FolderIndexed | FolderSignalsInvalidated
    | FolderSignalsIndexed | FolderDeleted

  datatype SourceKind = DocumentSource | FolderSource

  datatype Event = Event(tenant: string, sourceKind: SourceKind, sourceId: string, eventType: EventType,
                         payload: Object)

  datatype Command = Command(document: DocumentState, chunks: seq<ChunkProjection>, index: IndexState,
                             signals: seq<Signal>)

  /** SHA-256 as hex digits, the digest of vector inputs, and the length of a text in bytes. */
  datatype Digests = Digests(
    sha256: string -> string, vector: (string, EmbeddingSpec) -> string, size: string -> nat)

  function FullText(d: Document): string {
    DocumentChunker.FullText(d.title, d.body)
  }

  function StateOf(d: Document, contentDigest: string, contentSize: nat): DocumentState {
    DocumentState(d.identity, d.title, d.createdAt, d.updatedAt, contentDigest, contentSize, d.metadata)
  }

  /** What a chunk is projected as. */
  function ProjectionOf(c: Chunk, contentDigest: string, spec: EmbeddingSpec, digests: Digests): ChunkProjection {
    var hash := digests.sha256(c.text);
    ChunkProjection(c.identity, ChunkDigests(contentDigest, c.indexInputDigest, digests.vector(hash, spec)),
                    c.createdAt, c.updatedAt, c.id, c.place, c.text, hash, spec, c.metadata)
  }

  function Each<S, T>(items: seq<S>, f: S -> T): (r: seq<T>)
    ensures |r| == |items| && forall i | 0 <= i < |items| :: r[i] == f(items[i])
  {
    seq(|items|, i requires 0 <= i < |items| => f(items[i]))
  }

  function CommandOf(document: Document, chunks: seq<Chunk>, index: IndexState, signals: seq<Signal>,
                     spec: EmbeddingSpec, digests: Digests): Command
  {
    var digest := digests.sha256(FullText(document));
    Command(StateOf(document, digest, digests.size(FullText(document))),
            Each(chunks, c => ProjectionOf(c, digest, spec, digests)), index, signals)
  }

  // The producer

  function OptionalText(value: Option<string>): Json {
    if value.Some? then Text(value.value) else Null
  }

  function OptionalWhole(value: Option<int>): Json {
    if value.Some? then Whole(value.value) else Null
  }

  function OptionalDecimal(value: Option<real>): Json {
    if value.Some? then Decimal(value.value) else Null
  }

  function KindName(kind: SignalKind): string {
    match kind
    case Summary => "summary"
    case Concept => "concept"
    case Entity => "entity"
    case Issue => "issue"
    case Commitment => "commitment"
    case Claim => "claim"
  }

  function DocumentPayload(d: Document, contentDigest: string, contentSize: nat): Object {
    map[Tenant := Text(d.identity.tenant), DocumentType := OptionalText(d.identity.documentType),
        DocumentId := Text(d.identity.documentId), SourceVersion := Text(d.identity.version),
        ContentDigest := Text(contentDigest),
        ContentSizeBytes := Whole(contentSize), Title := Text(d.title),
        CreatedAt := Text(d.createdAt), UpdatedAt := Text(d.updatedAt), Metadata := Dict(d.metadata)]
  }

  function ChunkPayload(c: Chunk, contentDigest: string, spec: EmbeddingSpec, chunkingVersion: string,
                        digests: Digests): Object
  {
    map[Tenant := Text(c.identity.tenant), DocumentType := OptionalText(c.identity.documentType),
        DocumentId := Text(c.identity.documentId), SourceVersion := Text(c.identity.version),
        ContentDigest := Text(contentDigest),
        IndexInputDigest := Text(c.indexInputDigest), SourceInputDigest := Text(c.indexInputDigest),
        VectorInputDigest := Text(digests.vector(digests.sha256(c.text), spec)),
        CreatedAt := Text(c.createdAt), UpdatedAt := Text(c.updatedAt), ChunkId := Text(c.id),
        ChunkIndex := Whole(c.place.index), ChunkingVersion := Text(chunkingVersion), SearchText := Text(c.text),
        SourceStartOffset := Whole(c.place.startOffset), SourceEndOffset := Whole(c.place.endOffset),
        EmbeddingModel := Text(spec.model), EmbeddingVersion := Text(spec.version),
        IndexSchemaVersion := Text(spec.schemaVersion), Metadata := Dict(c.metadata)]
  }

  function IndexPayload(d: Document, index: IndexState, contentDigest: string): Object {
    map[Tenant := Text(d.identity.tenant), DocumentType := OptionalText(d.identity.documentType),
        DocumentId := Text(index.documentId), SourceVersion := Text(d.identity.version),
        ContentDigest := Text(contentDigest),
        IndexInputDigest := Text(index.indexInputDigest), SignalInputDigest := Text(index.signalInputDigest),
        GenerationVersion := Text(index.generationVersion), CreatedAt := Text(d.createdAt),
        UpdatedAt := Text(d.updatedAt),
        Title := Text(if Strip(d.title) != "" then Strip(d.title) else d.identity.documentId),
        Metadata := Dict(map[SourceMetadata := Dict(d.metadata)])]
  }

  function EvidencePayload(e: SignalEvidence): Object {
    map[ChunkId := Text(e.chunkId), Quote := Text(e.quote), StartOffset := OptionalWhole(e.startOffset),
        EndOffset := OptionalWhole(e.endOffset), Metadata := Dict(e.metadata)]
  }

  function SignalPayload(s: Signal, contentDigest: string): Object {
    map[SignalId := Text(s.id), Tenant := Text(s.identity.tenant),
        DocumentType := OptionalText(s.identity.documentType), DocumentId := Text(s.identity.documentId),
        SourceVersion := Text(s.identity.version), ContentDigest := Text(contentDigest),
        SignalInputDigest := Text(s.signalInputDigest), GenerationVersion := Text(s.generationVersion),
        SignalType := Text(KindName(s.kind)), SignalKey := Text(s.key), TextField := Text(s.text),
        Attributes := Dict(s.attributes), Evidence := List(Each(s.evidence, e => Dict(EvidencePayload(e)))),
        Confidence := OptionalDecimal(s.confidence), ExtractorName := Text(s.extractor.name),
        ExtractorVersion := Text(s.extractor.version), GenerationModel := OptionalText(s.extractor.model),
        Metadata := Dict(s.metadata)]
  }

  /** The same version of the same document; the document type is not compared. */
  predicate SameVersion(a: Identity, b: Identity) {
    a.tenant == b.tenant && a.documentId == b.documentId && a.version == b.version
  }

  /** The producer's check: chunks and signals belong to the document and to its index state. */
  predicate ProducerContext(document: Document, chunks: seq<Chunk>, index: IndexState, signals: seq<Signal>) {
    && Strip(document.identity.tenant) != "" && Strip(document.identity.documentId) != ""
    && Strip(document.identity.version) != ""
    && chunks != []
    && Strip(index.indexInputDigest) != "" && Strip(index.signalInputDigest) != ""
    && Strip(index.generationVersion) != ""
    && index.documentId == document.identity.documentId
    && (forall i | 0 <= i < |chunks| ::
          && SameVersion(chunks[i].identity, document.identity)
          && chunks[i].indexInputDigest == index.indexInputDigest)
    && (forall i | 0 <= i < |signals| ::
          && SameVersion(signals[i].identity, document.identity)
          && signals[i].signalInputDigest == index.signalInputDigest
          && signals[i].generationVersion == index.generationVersion)
  }

  function IndexedPayload(document: Document, chunks: seq<Chunk>, index: IndexState, signals: seq<Signal>,
                          spec: EmbeddingSpec, chunkingVersion: string, digests: Digests): Object
  {
    var digest := digests.sha256(FullText(document));
    map[SourceDocument := Dict(DocumentPayload(document, digest, digests.size(FullText(document)))),
        Chunks := List(Each(chunks, c => Dict(ChunkPayload(c, digest, spec, chunkingVersion, digests)))),
        Profile := Dict(IndexPayload(document, index, digest)),
        Signals := List(Each(signals, s => Dict(SignalPayload(s, digest))))]
  }

  function IndexedEvent(document: Document, chunks: seq<Chunk>, index: IndexState, signals: seq<Signal>,
                        spec: EmbeddingSpec, chunkingVersion: string, digests: Digests): Result<Event>
  {
    if !ProducerContext(document, chunks, index, signals) then Err("context must match the source document")
    else if Strip(chunkingVersion) == "" then Err("chunking_version must not be blank")
    else Ok(Event(document.identity.tenant, DocumentSource, document.identity.documentId, DocumentIndexed,
                  IndexedPayload(document, chunks, index, signals, spec, Strip(chunkingVersion), digests)))
  }

  // The consumer

  function FieldOf(fields: Object, name: Field): Json {
    if name in fields then fields[name] else Null
  }

  function RequiredText(fields: Object, name: Field): Result<string> {
    var value := FieldOf(fields, name);
    if value.Text? && Strip(value.text) != "" then Ok(Strip(value.text)) else Err("not a text")
  }

  function RequiredContentText(fields: Object, name: Field): Result<string> {
    var value := FieldOf(fields, name);
    if value.Text? && Strip(value.text) != "" then Ok(value.text) else Err("not a text")
  }

  function OptionalContentText(fields: Object, name: Field): Result<Option<string>> {
    var value := FieldOf(fields, name);
    if value.Null? then Ok(None) else if value.Text? then Ok(Some(value.text)) else Err("not a text")
  }

  function OptionalNonBlankText(fields: Object, name: Field): Result<Option<string>> {
    var value := FieldOf(fields, name);
    if value.Null? then Ok(None)
    else if value.Text? && Strip(value.text) != "" then Ok(Some(Strip(value.text)))
    else Err("not a text")
  }

  /** A blank text counts as absent here. */
  function OptionalStrippedText(fields: Object, name: Field): Result<Option<string>> {
    var value := FieldOf(fields, name);
    if value.Null? then Ok(None)
    else if !value.Text? then Err("not a text")
    else if Strip(value.text) == "" then Ok(None)
    else Ok(Some(Strip(value.text)))
  }

  function RequiredWhole(fields: Object, name: Field): Result<int> {
    var value := FieldOf(fields, name);
    if value.Whole? then Ok(value.whole) else Err("not an integer")
  }

  function OptionalInt(fields: Object, name: Field): Result<Option<int>> {
    var value := FieldOf(fields, name);
    if value.Null? then Ok(None) else if value.Whole? then Ok(Some(value.whole)) else Err("not an integer")
  }

  function OptionalConfidence(fields: Object, name: Field): Result<Option<real>> {
    match FieldOf(fields, name)
    case Null => Ok(None)
    case Whole(n) => if 0 <= n <= 1 then Ok(Some(n as real)) else Err("not between 0 and 1")
    case Decimal(x) => if 0.0 <= x <= 1.0 then Ok(Some(x)) else Err("not between 0 and 1")
    case _ => Err("not a number")
  }

  function MetadataField(fields: Object, name: Field): Result<Object> {
    match FieldOf(fields, name)
    case Null => Ok(map[])
    case Dict(metadata) => Ok(metadata)
    case _ => Err("not an object")
  }

  function NestedObject(fields: Object, name: Field): Result<Object> {
    var value := FieldOf(fields, name);
    if value.Dict? then Ok(value.fields) else Err("not an object")
  }

  function ObjectItems(fields: Object, name: Field): Result<seq<Json>> {
    var value := FieldOf(fields, name);
    if value.List? && forall i | 0 <= i < |value.items| :: value.items[i].Dict? then Ok(value.items)
    else Err("not a list of objects")
  }

  function DecodeEach<T>(items: seq<Json>, decode: Object -> Result<T>): Result<seq<T>> {
    if items == [] then Ok([])
    else if !items[0].Dict? then Err("not an object")
    else
      var first :- decode(items[0].fields);
      var rest :- DecodeEach(items[1..], decode);
      Ok([first] + rest)
  }

  function IdentityFromPayload(p: Object): Result<Identity> {
    var tenant :- RequiredText(p, Tenant);
    var documentType :- OptionalNonBlankText(p, DocumentType);
    var documentId :- RequiredText(p, DocumentId);
    var version :- RequiredText(p, SourceVersion);
    Ok(Identity(tenant, documentType, documentId, version))
  }

  function RequiredNonNegativeWhole(p: Object, name: Field): Result<int> {
    var n :- RequiredWhole(p, name);
    if n < 0 then Err("negative") else Ok(n)
  }

  /** A document state from its decoded parts, failing with the first part that fails. */
  function DocumentOf(identity: Result<Identity>, contentDigest: Result<string>, size: Result<int>,
                      createdAt: Result<string>, updatedAt: Result<string>, title: Result<Option<string>>,
                      metadata: Result<Object>): Result<DocumentState>
  {
    var identity :- identity;
    var contentDigest :- contentDigest;
    var size :- size;
    var createdAt :- createdAt;
    var updatedAt :- updatedAt;
    var title :- title;
    var metadata :- metadata;
    Ok(DocumentState(identity, if title.Some? then title.value else "", createdAt, updatedAt, contentDigest, size,
                     metadata))
  }

  function DocumentFromPayload(p: Object): Result<DocumentState> {
    DocumentOf(IdentityFromPayload(p), RequiredText(p, ContentDigest), RequiredNonNegativeWhole(p, ContentSizeBytes),
               RequiredText(p, CreatedAt), RequiredText(p, UpdatedAt), OptionalContentText(p, Title),
               MetadataField(p, Metadata))
  }

  function EmbeddingFromPayload(p: Object): Result<EmbeddingSpec> {
    var model :- RequiredText(p, EmbeddingModel);
    var version :- RequiredText(p, EmbeddingVersion);
    var schemaVersion :- RequiredText(p, IndexSchemaVersion);
    Ok(EmbeddingSpec(model, version, schemaVersion))
  }

  function ChunkDigestsFromPayload(p: Object): Result<ChunkDigests> {
    var content :- RequiredText(p, ContentDigest);
    var sourceInput :- RequiredText(p, SourceInputDigest);
    var vectorInput :- RequiredText(p, VectorInputDigest);
    Ok(ChunkDigests(content, sourceInput, vectorInput))
  }

  function PlaceFromPayload(p: Object): Result<Place> {
    var index :- RequiredWhole(p, ChunkIndex);
    var startOffset :- RequiredWhole(p, SourceStartOffset);
    var endOffset :- RequiredWhole(p, SourceEndOffset);
    Ok(Place(index, startOffset, endOffset))
  }

  /** A projection from its decoded parts, failing with the first part that fails. */
  function ChunkOf(text: Result<string>, identity: Result<Identity>, chunkDigests: Result<ChunkDigests>,
                   createdAt: Result<string>, updatedAt: Result<string>, id: Result<string>, place: Result<Place>,
                   embedding: Result<EmbeddingSpec>, metadata: Result<Object>, hash: string -> string)
    : Result<ChunkProjection>
  {
    var text :- text;
    var identity :- identity;
    var chunkDigests :- chunkDigests;
    var createdAt :- createdAt;
    var updatedAt :- updatedAt;
    var id :- id;
    var place :- place;
    var embedding :- embedding;
    var metadata :- metadata;
    Ok(ChunkProjection(identity, chunkDigests, createdAt, updatedAt, id, place, text, hash(text), embedding, metadata))
  }

  function ChunkFromPayload(p: Object, digests: Digests): Result<ChunkProjection> {
    ChunkOf(RequiredContentText(p, SearchText), IdentityFromPayload(p), ChunkDigestsFromPayload(p),
            RequiredText(p, CreatedAt), RequiredText(p, UpdatedAt), RequiredText(p, ChunkId), PlaceFromPayload(p),
            EmbeddingFromPayload(p), MetadataField(p, Metadata), digests.sha256)
  }

  /** The fields of the index payload that are required but not kept. */
  predicate IndexPayloadChecks(p: Object) {
    && RequiredText(p, Tenant).Ok? && OptionalNonBlankText(p, DocumentType).Ok? && RequiredText(p, SourceVersion).Ok?
    && RequiredText(p, ContentDigest).Ok? && RequiredText(p, CreatedAt).Ok? && RequiredText(p, UpdatedAt).Ok?
    && RequiredContentText(p, Title).Ok? && MetadataField(p, Metadata).Ok?
  }

  function IndexKept(p: Object): Result<IndexState> {
    var documentId :- RequiredText(p, DocumentId);
    var indexInputDigest :- RequiredText(p, IndexInputDigest);
    var signalInputDigest :- RequiredText(p, SignalInputDigest);
    var generationVersion :- RequiredText(p, GenerationVersion);
    Ok(IndexState(documentId, indexInputDigest, signalInputDigest, generationVersion))
  }

  function IndexFromPayload(p: Object): Result<IndexState> {
    if !IndexPayloadChecks(p) then Err("missing field") else IndexKept(p)
  }

  function KindOf(name: string): Result<SignalKind> {
    if name == KindName(Summary) then Ok(Summary)
    else if name == KindName(Concept) then Ok(Concept)
    else if name == KindName(Entity) then Ok(Entity)
    else if name == KindName(Issue) then Ok(Issue)
    else if name == KindName(Commitment) then Ok(Commitment)
    else if name == KindName(Claim) then Ok(Claim)
    else Err("unknown signal type")
  }

  function EvidenceFromPayload(p: Object): Result<SignalEvidence> {
    var chunkId :- RequiredText(p, ChunkId);
    var quote :- RequiredContentText(p, Quote);
    var startOffset :- OptionalInt(p, StartOffset);
    var endOffset :- OptionalInt(p, EndOffset);
    var metadata :- MetadataField(p, Metadata);
    Ok(SignalEvidence(chunkId, quote, startOffset, endOffset, metadata))
  }

  function KindFromPayload(p: Object): Result<SignalKind> {
    var name :- RequiredText(p, SignalType);
    KindOf(name)
  }

  function EvidencesFromPayload(p: Object): Result<seq<SignalEvidence>> {
    var items :- ObjectItems(p, Evidence);
    DecodeEach(items, EvidenceFromPayload)
  }

  function ExtractorFromPayload(p: Object): Result<Extractor> {
    var name :- RequiredText(p, ExtractorName);
    var version :- RequiredText(p, ExtractorVersion);
    var model :- OptionalStrippedText(p, GenerationModel);
    Ok(Extractor(name, version, model))
  }

  function AboutFromPayload(p: Object): Result<(string, string, string)> {
    var id :- RequiredText(p, SignalId);
    var signalInputDigest :- RequiredText(p, SignalInputDigest);
    var generationVersion :- RequiredText(p, GenerationVersion);
    Ok((id, signalInputDigest, generationVersion))
  }

  /** A signal from its decoded parts, failing with the first part that fails. */
  function SignalOf(contentDigest: Result<string>, about: Result<(string, string, string)>, identity: Result<Identity>,
                    kind: Result<SignalKind>, key: Result<string>, text: Result<string>, attributes: Result<Object>,
                    evidence: Result<seq<SignalEvidence>>, confidence: Result<Option<real>>,
                    extractor: Result<Extractor>, metadata: Result<Object>): Result<Signal>
  {
    var _ :- contentDigest;
    var about :- about;
    var identity :- identity;
    var kind :- kind;
    var key :- key;
    var text :- text;
    var attributes :- attributes;
    var evidence :- evidence;
    var confidence :- confidence;
    var extractor :- extractor;
    var metadata :- metadata;
    Ok(Signal(about.0, identity, about.1, about.2, kind, key, text, attributes, evidence, confidence, extractor,
              metadata))
  }

  function SignalFromPayload(p: Object): Result<Signal> {
    SignalOf(RequiredText(p, ContentDigest), AboutFromPayload(p), IdentityFromPayload(p), KindFromPayload(p),
             RequiredText(p, SignalKey), RequiredContentText(p, TextField), MetadataField(p, Attributes),
             EvidencesFromPayload(p), OptionalConfidence(p, Confidence), ExtractorFromPayload(p),
             MetadataField(p, Metadata))
  }

  function ChunksFromPayload(p: Object, digests: Digests): Result<seq<ChunkProjection>> {
    var items :- ObjectItems(p, Chunks);
    DecodeEach(items, q => ChunkFromPayload(q, digests))
  }

  function SignalsFromPayload(p: Object): Result<seq<Signal>> {
    var items :- ObjectItems(p, Signals);
    DecodeEach(items, SignalFromPayload)
  }

  /** The consumer's check: index state, chunks and signals are of the document. */
  predicate ConsumerContext(c: Command, profile: Object) {
    && RequiredText(profile, Tenant) == Ok(c.document.identity.tenant)
    && c.index.documentId == c.document.identity.documentId
    && RequiredText(profile, SourceVersion) == Ok(c.document.identity.version)
    && RequiredText(profile, ContentDigest) == Ok(c.document.contentDigest)
    && (forall i | 0 <= i < |c.chunks| ::
          && SameVersion(c.chunks[i].identity, c.document.identity)
          && c.chunks[i].digests.content == c.document.contentDigest
          && c.chunks[i].digests.sourceInput == c.index.indexInputDigest)
    && (forall i | 0 <= i < |c.signals| ::
          && SameVersion(c.signals[i].identity, c.document.identity)
          && c.signals[i].signalInputDigest == c.index.signalInputDigest)
  }

  /** The command of an event from its decoded parts, if they fit together. */
  function CheckedCommand(event: Event, profile: Object, document: Result<DocumentState>,
                          chunks: Result<seq<ChunkProjection>>, index: Result<IndexState>, signals: Result<seq<Signal>>)
    : Result<Command>
  {
    var document :- document;
    var chunks :- chunks;
    var index :- index;
    var signals :- signals;
    var command := Command(document, chunks, index, signals);
    if !ConsumerContext(command, profile) then Err("mismatched document projection context")
    else if event.tenant != document.identity.tenant || event.sourceId != document.identity.documentId then
      Err("mismatched identity")
    else Ok(command)
  }

  function CommandFromEvent(event: Event, digests: Digests): Result<Command> {
    if event.eventType != DocumentIndexed || event.sourceKind != DocumentSource then Err("unexpected event") else
      var profile :- NestedObject(event.payload, Profile);
      var source :- NestedObject(event.payload, SourceDocument);
      CheckedCommand(event, profile, DocumentFromPayload(source), ChunksFromPayload(event.payload, digests),
                     IndexFromPayload(profile), SignalsFromPayload(event.payload))
  }

  // Round trip

  /** A text the consumer keeps as it is. */
  predicate Trimmed(s: string) {
    s != "" && Strip(s) == s
  }

  predicate TrimmedIfPresent(s: Option<string>) {
    s.Some? ==> Trimmed(s.value)
  }

  predicate TrimmedIdentity(i: Identity) {
    Trimmed(i.tenant) && TrimmedIfPresent(i.documentType) && Trimmed(i.documentId) && Trimmed(i.version)
  }

  predicate TrimmedDocument(d: Document) {
    TrimmedIdentity(d.identity) && Trimmed(d.createdAt) && Trimmed(d.updatedAt)
  }

  predicate TrimmedSpec(spec: EmbeddingSpec) {
    Trimmed(spec.model) && Trimmed(spec.version) && Trimmed(spec.schemaVersion)
  }

  predicate TrimmedChunk(c: Chunk) {
    && TrimmedIdentity(c.identity) && Trimmed(c.indexInputDigest) && Trimmed(c.createdAt) && Trimmed(c.updatedAt)
    && Trimmed(c.id) && !Blank(c.text)
  }

  predicate TrimmedIndex(index: IndexState) {
    && Trimmed(index.documentId) && Trimmed(index.indexInputDigest) && Trimmed(index.signalInputDigest)
    && Trimmed(index.generationVersion)
  }

  predicate TrimmedEvidence(e: SignalEvidence) {
    Trimmed(e.chunkId) && !Blank(e.quote)
  }

  predicate TrimmedExtractor(e: Extractor) {
    Trimmed(e.name) && Trimmed(e.version) && TrimmedIfPresent(e.model)
  }

  predicate TrimmedSignal(s: Signal) {
    && Trimmed(s.id) && TrimmedIdentity(s.identity) && Trimmed(s.signalInputDigest) && Trimmed(s.generationVersion)
    && Trimmed(s.key) && !Blank(s.text) && TrimmedExtractor(s.extractor)
    && (s.confidence.Some? ==> 0.0 <= s.confidence.value <= 1.0)
    && forall i | 0 <= i < |s.evidence| :: TrimmedEvidence(s.evidence[i])
  }

  /** Digests are hex digits, so there is nothing to strip from them. */
  ghost predicate HexDigests(digests: Digests) {
    && (forall s :: Trimmed(digests.sha256(s)))
    && (forall s, spec :: Trimmed(digests.vector(s, spec)))
  }

  lemma {:induction false} TextRead(p: Object, name: Field, s: string)
    requires FieldOf(p, name) == Text(s)
    ensures RequiredText(p, name) == Ok(s) <==> Trimmed(s)
    ensures RequiredText(p, name).Ok? <==> Strip(s) != ""
  {
  }

  // What identifies a document is read from its own payload and from those of its chunks and signals.

  predicate IdentityFields(p: Object, i: Identity) {
    && FieldOf(p, Tenant) == Text(i.tenant) && FieldOf(p, DocumentType) == OptionalText(i.documentType)
    && FieldOf(p, DocumentId) == Text(i.documentId) && FieldOf(p, SourceVersion) == Text(i.version)
  }

  lemma {:induction false} IdentityRead(p: Object, i: Identity)
    requires IdentityFields(p, i)
    ensures IdentityFromPayload(p) == Ok(i) <==> TrimmedIdentity(i)
  {
  }

  // The document

  predicate DocumentFields(p: Object, d: Document, contentDigest: string, contentSize: nat) {
    && FieldOf(p, ContentDigest) == Text(contentDigest) && FieldOf(p, ContentSizeBytes) == Whole(contentSize)
    && FieldOf(p, Title) == Text(d.title) && FieldOf(p, CreatedAt) == Text(d.createdAt)
    && FieldOf(p, UpdatedAt) == Text(d.updatedAt) && FieldOf(p, Metadata) == Dict(d.metadata)
  }

  lemma {:induction false} DocumentPayloadFields(d: Document, contentDigest: string, contentSize: nat)
    ensures IdentityFields(DocumentPayload(d, contentDigest, contentSize), d.identity)
    ensures DocumentFields(DocumentPayload(d, contentDigest, contentSize), d, contentDigest, contentSize)
  {
  }

  /** A document decodes to a state exactly when each of its parts does. */
  lemma {:induction false} DocumentDecoded(identity: Result<Identity>, contentDigest: Result<string>, size: Result<int>,
                                           createdAt: Result<string>, updatedAt: Result<string>,
                                           title: Result<Option<string>>, metadata: Result<Object>, d: DocumentState)
    requires title == Ok(Some(d.title))
    ensures DocumentOf(identity, contentDigest, size, createdAt, updatedAt, title, metadata) == Ok(d) <==>
            && identity == Ok(d.identity) && contentDigest == Ok(d.contentDigest) && size == Ok(d.contentSize)
            && createdAt == Ok(d.createdAt) && updatedAt == Ok(d.updatedAt) && metadata == Ok(d.metadata)
  {
  }

  lemma {:induction false} DocumentRead(p: Object, d: Document, contentDigest: string, contentSize: nat)
    requires IdentityFields(p, d.identity) && DocumentFields(p, d, contentDigest, contentSize) && Trimmed(contentDigest)
    ensures DocumentFromPayload(p) == Ok(StateOf(d, contentDigest, contentSize)) <==> TrimmedDocument(d)
  {
    IdentityRead(p, d.identity);
    TextRead(p, ContentDigest, contentDigest);
    TextRead(p, CreatedAt, d.createdAt);
    TextRead(p, UpdatedAt, d.updatedAt);
    DocumentDecoded(IdentityFromPayload(p), RequiredText(p, ContentDigest),
                    RequiredNonNegativeWhole(p, ContentSizeBytes),
                    RequiredText(p, CreatedAt), RequiredText(p, UpdatedAt), OptionalContentText(p, Title),
                    MetadataField(p, Metadata), StateOf(d, contentDigest, contentSize));
  }

  lemma {:induction false} DocumentRoundTrip(d: Document, contentDigest: string, contentSize: nat)
    requires Trimmed(contentDigest)
    ensures (DocumentFromPayload(DocumentPayload(d, contentDigest, contentSize))
             == Ok(StateOf(d, contentDigest, contentSize)))
       <==> TrimmedDocument(d)
  {
    var p := DocumentPayload(d, contentDigest, contentSize);
    DocumentPayloadFields(d, contentDigest, contentSize);
    DocumentRead(p, d, contentDigest, contentSize);
  }

  // Chunks

  predicate DigestFields(p: Object, d: ChunkDigests) {
    && FieldOf(p, ContentDigest) == Text(d.content) && FieldOf(p, SourceInputDigest) == Text(d.sourceInput)
    && FieldOf(p, VectorInputDigest) == Text(d.vectorInput)
  }

  lemma {:induction false} DigestsRead(p: Object, d: ChunkDigests)
    requires DigestFields(p, d)
    ensures ChunkDigestsFromPayload(p) == Ok(d)
            <==> Trimmed(d.content) && Trimmed(d.sourceInput) && Trimmed(d.vectorInput)
  {
  }

  predicate PlaceFields(p: Object, place: Place) {
    && FieldOf(p, ChunkIndex) == Whole(place.index) && FieldOf(p, SourceStartOffset) == Whole(place.startOffset)
    && FieldOf(p, SourceEndOffset) == Whole(place.endOffset)
  }

  predicate EmbeddingFields(p: Object, spec: EmbeddingSpec) {
    && FieldOf(p, EmbeddingModel) == Text(spec.model) && FieldOf(p, EmbeddingVersion) == Text(spec.version)
    && FieldOf(p, IndexSchemaVersion) == Text(spec.schemaVersion)
  }

  lemma {:induction false} EmbeddingRead(p: Object, spec: EmbeddingSpec)
    requires EmbeddingFields(p, spec)
    ensures EmbeddingFromPayload(p) == Ok(spec) <==> TrimmedSpec(spec)
  {
  }

  predicate ChunkFields(p: Object, c: ChunkProjection) {
    && FieldOf(p, CreatedAt) == Text(c.createdAt) && FieldOf(p, UpdatedAt) == Text(c.updatedAt)
    && FieldOf(p, ChunkId) == Text(c.id) && FieldOf(p, SearchText) == Text(c.text)
    && FieldOf(p, Metadata) == Dict(c.metadata)
  }

  lemma {:induction false} ChunkPayloadIdentity(c: Chunk, contentDigest: string, spec: EmbeddingSpec,
                                                chunkingVersion: string, digests: Digests)
    ensures IdentityFields(ChunkPayload(c, contentDigest, spec, chunkingVersion, digests), c.identity)
  {
  }

  lemma {:induction false} ChunkPayloadDigests(c: Chunk, contentDigest: string, spec: EmbeddingSpec,
                                               chunkingVersion: string, digests: Digests)
    ensures DigestFields(ChunkPayload(c, contentDigest, spec, chunkingVersion, digests),
                         ChunkDigests(contentDigest, c.indexInputDigest, digests.vector(digests.sha256(c.text), spec)))
  {
  }

  lemma {:induction false} ChunkPayloadSpec(c: Chunk, contentDigest: string, spec: EmbeddingSpec,
                                            chunkingVersion: string, digests: Digests)
    ensures PlaceFields(ChunkPayload(c, contentDigest, spec, chunkingVersion, digests), c.place)
    ensures EmbeddingFields(ChunkPayload(c, contentDigest, spec, chunkingVersion, digests), spec)
  {
  }

  lemma {:induction false} ChunkPayloadRest(c: Chunk, contentDigest: string, spec: EmbeddingSpec,
                                            chunkingVersion: string, digests: Digests)
    ensures ChunkFields(ChunkPayload(c, contentDigest, spec, chunkingVersion, digests),
                        ProjectionOf(c, contentDigest, spec, digests))
  {
  }

  /** A chunk decodes to a projection exactly when each of its parts does. */
  lemma {:induction false} ChunkDecoded(text: Result<string>, identity: Result<Identity>,
                                        chunkDigests: Result<ChunkDigests>, createdAt: Result<string>,
                                        updatedAt: Result<string>, id: Result<string>, place: Result<Place>,
                                        embedding: Result<EmbeddingSpec>, metadata: Result<Object>,
                                        hash: string -> string, c: ChunkProjection)
    requires c.textHash == hash(c.text)
    ensures ChunkOf(text, identity, chunkDigests, createdAt, updatedAt, id, place, embedding, metadata, hash) == Ok(c)
       <==> && text == Ok(c.text) && identity == Ok(c.identity) && chunkDigests == Ok(c.digests)
            && createdAt == Ok(c.createdAt) && updatedAt == Ok(c.updatedAt) && id == Ok(c.id) && place == Ok(c.place)
            && embedding == Ok(c.embedding) && metadata == Ok(c.metadata)
  {
  }

  lemma {:induction false} ChunkFieldsRead(p: Object, c: ChunkProjection)
    requires ChunkFields(p, c)
    ensures RequiredContentText(p, SearchText) == Ok(c.text) <==> !Blank(c.text)
    ensures RequiredText(p, CreatedAt) == Ok(c.createdAt) <==> Trimmed(c.createdAt)
    ensures RequiredText(p, UpdatedAt) == Ok(c.updatedAt) <==> Trimmed(c.updatedAt)
    ensures RequiredText(p, ChunkId) == Ok(c.id) <==> Trimmed(c.id)
    ensures MetadataField(p, Metadata) == Ok(c.metadata)
  {
    StripCuts(c.text);
  }

  lemma {:induction false} ChunkRoundTrip(c: Chunk, contentDigest: string, spec: EmbeddingSpec, chunkingVersion: string,
                                          digests: Digests)
    requires HexDigests(digests) && Trimmed(contentDigest)
    ensures (ChunkFromPayload(ChunkPayload(c, contentDigest, spec, chunkingVersion, digests), digests)
             == Ok(ProjectionOf(c, contentDigest, spec, digests)))
       <==> TrimmedChunk(c) && TrimmedSpec(spec)
  {
    var p := ChunkPayload(c, contentDigest, spec, chunkingVersion, digests);
    ChunkPayloadIdentity(c, contentDigest, spec, chunkingVersion, digests);
    ChunkPayloadDigests(c, contentDigest, spec, chunkingVersion, digests);
    ChunkPayloadSpec(c, contentDigest, spec, chunkingVersion, digests);
    ChunkPayloadRest(c, contentDigest, spec, chunkingVersion, digests);
    ChunkRead(p, c, ProjectionOf(c, contentDigest, spec, digests), digests);
  }

  lemma {:induction false} ChunkRead(p: Object, c: Chunk, projection: ChunkProjection, digests: Digests)
    requires IdentityFields(p, c.identity) && DigestFields(p, projection.digests) && PlaceFields(p, c.place)
    requires EmbeddingFields(p, projection.embedding) && ChunkFields(p, projection)
    requires Trimmed(projection.digests.content) && Trimmed(projection.digests.vectorInput)
    requires projection.digests.sourceInput == c.indexInputDigest
    requires projection.textHash == digests.sha256(projection.text)
    requires projection == ChunkProjection(c.identity, projection.digests, c.createdAt, c.updatedAt, c.id, c.place,
                                           c.text, projection.textHash, projection.embedding, c.metadata)
    ensures ChunkFromPayload(p, digests) == Ok(projection) <==> TrimmedChunk(c) && TrimmedSpec(projection.embedding)
  {
    IdentityRead(p, c.identity);
    DigestsRead(p, projection.digests);
    EmbeddingRead(p, projection.embedding);
    ChunkFieldsRead(p, projection);
    ChunkDecoded(RequiredContentText(p, SearchText), IdentityFromPayload(p), ChunkDigestsFromPayload(p),
                 RequiredText(p, CreatedAt), RequiredText(p, UpdatedAt), RequiredText(p, ChunkId), PlaceFromPayload(p),
                 EmbeddingFromPayload(p), MetadataField(p, Metadata), digests.sha256, projection);
  }

  // The index state

  predicate IndexFields(p: Object, index: IndexState) {
    && FieldOf(p, DocumentId) == Text(index.documentId) && FieldOf(p, IndexInputDigest) == Text(index.indexInputDigest)
    && FieldOf(p, SignalInputDigest) == Text(index.signalInputDigest)
    && FieldOf(p, GenerationVersion) == Text(index.generationVersion)
  }

  lemma {:induction false} IndexPayloadFields(d: Document, index: IndexState, contentDigest: string)
    ensures IndexFields(IndexPayload(d, index, contentDigest), index)
  {
  }

  lemma {:induction false} IndexRead(p: Object, index: IndexState)
    requires IndexFields(p, index)
    ensures IndexKept(p) == Ok(index) <==> TrimmedIndex(index)
  {
  }

  predicate CheckedFields(p: Object, d: Document, contentDigest: string) {
    && FieldOf(p, Tenant) == Text(d.identity.tenant)
    && FieldOf(p, DocumentType) == OptionalText(d.identity.documentType)
    && FieldOf(p, SourceVersion) == Text(d.identity.version) && FieldOf(p, ContentDigest) == Text(contentDigest)
    && FieldOf(p, CreatedAt) == Text(d.createdAt) && FieldOf(p, UpdatedAt) == Text(d.updatedAt)
    && FieldOf(p, Title) == Text(if Strip(d.title) != "" then Strip(d.title) else d.identity.documentId)
    && FieldOf(p, Metadata).Dict?
  }

  lemma {:induction false} IndexPayloadCheckedFields(d: Document, index: IndexState, contentDigest: string)
    ensures CheckedFields(IndexPayload(d, index, contentDigest), d, contentDigest)
  {
  }

  lemma {:induction false} StripTwice(s: string)
    ensures Strip(Strip(s)) == "" <==> Strip(s) == ""
  {
    StripCuts(Strip(s));
    StrippedIsBlankOnlyIfEmpty(s);
  }

  /** The title of the payload is never blank: a document without a title is given its id. */
  lemma {:induction false} TitleRead(p: Object, d: Document)
    requires FieldOf(p, Title) == Text(if Strip(d.title) != "" then Strip(d.title) else d.identity.documentId)
    requires Trimmed(d.identity.documentId)
    ensures RequiredContentText(p, Title).Ok?
  {
    StripTwice(d.title);
  }

  lemma {:induction false} ContextFieldsRead(p: Object, d: Document, contentDigest: string)
    requires CheckedFields(p, d, contentDigest) && TrimmedDocument(d) && Trimmed(contentDigest)
    ensures RequiredText(p, Tenant) == Ok(d.identity.tenant)
    ensures RequiredText(p, SourceVersion) == Ok(d.identity.version)
    ensures RequiredText(p, ContentDigest) == Ok(contentDigest)
  {
    TextRead(p, Tenant, d.identity.tenant);
    TextRead(p, SourceVersion, d.identity.version);
    TextRead(p, ContentDigest, contentDigest);
  }

  lemma {:induction false} StampsRead(p: Object, d: Document, contentDigest: string)
    requires CheckedFields(p, d, contentDigest) && TrimmedDocument(d)
    ensures RequiredText(p, CreatedAt).Ok? && RequiredText(p, UpdatedAt).Ok?
    ensures OptionalNonBlankText(p, DocumentType).Ok? && MetadataField(p, Metadata).Ok?
  {
    TextRead(p, CreatedAt, d.createdAt);
    TextRead(p, UpdatedAt, d.updatedAt);
  }

  lemma {:induction false} IndexRoundTrip(d: Document, index: IndexState, contentDigest: string)
    requires TrimmedDocument(d) && Trimmed(contentDigest)
    ensures IndexFromPayload(IndexPayload(d, index, contentDigest)) == Ok(index) <==> TrimmedIndex(index)
    ensures RequiredText(IndexPayload(d, index, contentDigest), Tenant) == Ok(d.identity.tenant)
    ensures RequiredText(IndexPayload(d, index, contentDigest), SourceVersion) == Ok(d.identity.version)
    ensures RequiredText(IndexPayload(d, index, contentDigest), ContentDigest) == Ok(contentDigest)
  {
    var p := IndexPayload(d, index, contentDigest);
    IndexPayloadFields(d, index, contentDigest);
    IndexPayloadCheckedFields(d, index, contentDigest);
    ContextFieldsRead(p, d, contentDigest);
    StampsRead(p, d, contentDigest);
    TitleRead(p, d);
    IndexRead(p, index);
  }

  // Lists

  /** A list decodes to given values exactly when each item decodes to its own. */
  lemma {:induction false} EachDecoded<T(!new)>(items: seq<Json>, decode: Object -> Result<T>, values: seq<T>)
    requires |items| == |values| && forall i | 0 <= i < |items| :: items[i].Dict?
    ensures DecodeEach(items, decode) == Ok(values)
       <==> forall i | 0 <= i < |items| :: decode(items[i].fields) == Ok(values[i])
  {
    if items != [] {
      EachDecoded(items[1..], decode, values[1..]);
      assert values == [values[0]] + values[1..];
      assert forall i | 1 <= i < |items| :: items[i] == items[1..][i - 1] && values[i] == values[1..][i - 1];
      assert forall i | 0 <= i < |items[1..]| :: items[1..][i] == items[i + 1] && values[1..][i] == values[i + 1];
      var first, rest := decode(items[0].fields), DecodeEach(items[1..], decode);
      if first.Ok? && rest.Ok? {
        assert DecodeEach(items, decode) == Ok([first.value] + rest.value);
        assert ([first.value] + rest.value)[0] == first.value && ([first.value] + rest.value)[1..] == rest.value;
      }
    }
  }

  // Signals

  lemma {:induction false} KindRoundTrip(kind: SignalKind)
    ensures KindOf(KindName(kind)) == Ok(kind) && Trimmed(KindName(kind))
  {
    var name := KindName(kind);
    assert Start(name) == 0 && End(name) == |name|;
    assert |KindName(Summary)| == |KindName(Concept)| == 7 && KindName(Summary)[0] != KindName(Concept)[0];
    assert |KindName(Issue)| == |KindName(Claim)| == 5 && KindName(Issue)[0] != KindName(Claim)[0];
  }

  lemma {:induction false} EvidenceRoundTrip(e: SignalEvidence)
    ensures EvidenceFromPayload(EvidencePayload(e)) == Ok(e) <==> TrimmedEvidence(e)
  {
    var p := EvidencePayload(e);
    assert FieldOf(p, ChunkId) == Text(e.chunkId) && FieldOf(p, Quote) == Text(e.quote);
    assert OptionalInt(p, StartOffset) == Ok(e.startOffset) && OptionalInt(p, EndOffset) == Ok(e.endOffset);
    assert MetadataField(p, Metadata) == Ok(e.metadata);
    TextRead(p, ChunkId, e.chunkId);
    StripCuts(e.quote);
  }

  predicate AboutFields(p: Object, s: Signal) {
    && FieldOf(p, SignalId) == Text(s.id) && FieldOf(p, SignalInputDigest) == Text(s.signalInputDigest)
    && FieldOf(p, GenerationVersion) == Text(s.generationVersion)
  }

  lemma {:induction false} AboutRead(p: Object, s: Signal)
    requires AboutFields(p, s)
    ensures AboutFromPayload(p) == Ok((s.id, s.signalInputDigest, s.generationVersion))
       <==> Trimmed(s.id) && Trimmed(s.signalInputDigest) && Trimmed(s.generationVersion)
  {
  }

  predicate ExtractorFields(p: Object, e: Extractor) {
    && FieldOf(p, ExtractorName) == Text(e.name) && FieldOf(p, ExtractorVersion) == Text(e.version)
    && FieldOf(p, GenerationModel) == OptionalText(e.model)
  }

  lemma {:induction false} ExtractorRead(p: Object, e: Extractor)
    requires ExtractorFields(p, e)
    ensures ExtractorFromPayload(p) == Ok(e) <==> TrimmedExtractor(e)
  {
  }

  predicate ContentFields(p: Object, s: Signal, contentDigest: string) {
    && FieldOf(p, ContentDigest) == Text(contentDigest) && FieldOf(p, SignalType) == Text(KindName(s.kind))
    && FieldOf(p, SignalKey) == Text(s.key) && FieldOf(p, TextField) == Text(s.text)
    && FieldOf(p, Attributes) == Dict(s.attributes) && FieldOf(p, Confidence) == OptionalDecimal(s.confidence)
    && FieldOf(p, Metadata) == Dict(s.metadata)
  }

  lemma {:induction false} ContentRead(p: Object, s: Signal, contentDigest: string)
    requires ContentFields(p, s, contentDigest) && Trimmed(contentDigest)
    ensures RequiredText(p, ContentDigest).Ok?
    ensures RequiredText(p, SignalKey) == Ok(s.key) <==> Trimmed(s.key)
    ensures RequiredContentText(p, TextField) == Ok(s.text) <==> !Blank(s.text)
    ensures MetadataField(p, Attributes) == Ok(s.attributes) && MetadataField(p, Metadata) == Ok(s.metadata)
    ensures OptionalConfidence(p, Confidence) == Ok(s.confidence)
       <==> (s.confidence.Some? ==> 0.0 <= s.confidence.value <= 1.0)
  {
    StripCuts(s.text);
  }

  lemma {:induction false} KindRead(p: Object, kind: SignalKind)
    requires FieldOf(p, SignalType) == Text(KindName(kind))
    ensures KindFromPayload(p) == Ok(kind)
  {
    KindRoundTrip(kind);
    TextRead(p, SignalType, KindName(kind));
  }

  lemma {:induction false} EvidencesRead(p: Object, evidence: seq<SignalEvidence>)
    requires FieldOf(p, Evidence) == List(Each(evidence, e => Dict(EvidencePayload(e))))
    ensures EvidencesFromPayload(p) == Ok(evidence)
       <==> forall i | 0 <= i < |evidence| :: TrimmedEvidence(evidence[i])
  {
    var items := FieldOf(p, Evidence).items;
    EachDecoded(items, EvidenceFromPayload, evidence);
    forall i | 0 <= i < |evidence|
      ensures EvidenceFromPayload(items[i].fields) == Ok(evidence[i]) <==> TrimmedEvidence(evidence[i])
    {
      EvidenceRoundTrip(evidence[i]);
    }
  }

  lemma {:induction false} SignalPayloadIdentity(s: Signal, contentDigest: string)
    ensures IdentityFields(SignalPayload(s, contentDigest), s.identity)
  {
  }

  lemma {:induction false} SignalPayloadAbout(s: Signal, contentDigest: string)
    ensures AboutFields(SignalPayload(s, contentDigest), s)
  {
  }

  lemma {:induction false} SignalPayloadContent(s: Signal, contentDigest: string)
    ensures ContentFields(SignalPayload(s, contentDigest), s, contentDigest)
  {
  }

  lemma {:induction false} SignalPayloadExtractor(s: Signal, contentDigest: string)
    ensures ExtractorFields(SignalPayload(s, contentDigest), s.extractor)
    ensures FieldOf(SignalPayload(s, contentDigest), Evidence) == List(Each(s.evidence, e => Dict(EvidencePayload(e))))
  {
  }

  /** A signal decodes to a signal exactly when each of its parts does. */
  lemma {:induction false} SignalDecoded(contentDigest: Result<string>, about: Result<(string, string, string)>,
                                         identity: Result<Identity>, kind: Result<SignalKind>, key: Result<string>,
                                         text: Result<string>, attributes: Result<Object>,
                                         evidence: Result<seq<SignalEvidence>>, confidence: Result<Option<real>>,
                                         extractor: Result<Extractor>, metadata: Result<Object>, s: Signal)
    ensures SignalOf(contentDigest, about, identity, kind, key, text, attributes, evidence, confidence, extractor,
                     metadata)
            == Ok(s)
       <==> && contentDigest.Ok? && about == Ok((s.id, s.signalInputDigest, s.generationVersion))
            && identity == Ok(s.identity) && kind == Ok(s.kind) && key == Ok(s.key) && text == Ok(s.text)
            && attributes == Ok(s.attributes) && evidence == Ok(s.evidence) && confidence == Ok(s.confidence)
            && extractor == Ok(s.extractor) && metadata == Ok(s.metadata)
  {
  }

  lemma {:induction false} SignalRoundTrip(s: Signal, contentDigest: string)
    requires Trimmed(contentDigest)
    ensures SignalFromPayload(SignalPayload(s, contentDigest)) == Ok(s) <==> TrimmedSignal(s)
  {
    SignalPayloadIdentity(s, contentDigest);
    SignalPayloadAbout(s, contentDigest);
    SignalPayloadContent(s, contentDigest);
    SignalPayloadExtractor(s, contentDigest);
    SignalRead(SignalPayload(s, contentDigest), s, contentDigest);
  }

  lemma {:induction false} SignalRead(p: Object, s: Signal, contentDigest: string)
    requires IdentityFields(p, s.identity) && AboutFields(p, s) && ContentFields(p, s, contentDigest)
    requires ExtractorFields(p, s.extractor) && Trimmed(contentDigest)
    requires FieldOf(p, Evidence) == List(Each(s.evidence, e => Dict(EvidencePayload(e))))
    ensures SignalFromPayload(p) == Ok(s) <==> TrimmedSignal(s)
  {
    IdentityRead(p, s.identity);
    AboutRead(p, s);
    ContentRead(p, s, contentDigest);
    KindRead(p, s.kind);
    ExtractorRead(p, s.extractor);
    EvidencesRead(p, s.evidence);
    SignalDecoded(RequiredText(p, ContentDigest), AboutFromPayload(p), IdentityFromPayload(p), KindFromPayload(p),
                  RequiredText(p, SignalKey), RequiredContentText(p, TextField), MetadataField(p, Attributes),
                  EvidencesFromPayload(p), OptionalConfidence(p, Confidence), ExtractorFromPayload(p),
                  MetadataField(p, Metadata), s);
  }

  // The event

  predicate TrimmedParts(document: Document, chunks: seq<Chunk>, index: IndexState, signals: seq<Signal>,
                         spec: EmbeddingSpec)
  {
    && TrimmedDocument(document) && TrimmedIndex(index) && TrimmedSpec(spec)
    && (forall i | 0 <= i < |chunks| :: TrimmedChunk(chunks[i]))
    && (forall i | 0 <= i < |signals| :: TrimmedSignal(signals[i]))
  }

  lemma {:induction false} ChunksRead(items: seq<Json>, chunks: seq<Chunk>, digest: string, spec: EmbeddingSpec,
                                      version: string, digests: Digests)
    requires HexDigests(digests) && Trimmed(digest) && |items| == |chunks|
    requires forall i | 0 <= i < |chunks| :: items[i] == Dict(ChunkPayload(chunks[i], digest, spec, version, digests))
    ensures DecodeEach(items, q => ChunkFromPayload(q, digests))
            == Ok(Each(chunks, c => ProjectionOf(c, digest, spec, digests)))
       <==> forall i | 0 <= i < |chunks| :: TrimmedChunk(chunks[i]) && TrimmedSpec(spec)
  {
    var decode := (q: Object) => ChunkFromPayload(q, digests);
    var values := Each(chunks, c => ProjectionOf(c, digest, spec, digests));
    EachDecoded(items, decode, values);
    forall i | 0 <= i < |chunks|
      ensures decode(items[i].fields) == Ok(values[i]) <==> TrimmedChunk(chunks[i]) && TrimmedSpec(spec)
    {
      ChunkRoundTrip(chunks[i], digest, spec, version, digests);
    }
  }

  lemma {:induction false} SignalsRead(items: seq<Json>, signals: seq<Signal>, digest: string)
    requires Trimmed(digest) && |items| == |signals|
    requires forall i | 0 <= i < |signals| :: items[i] == Dict(SignalPayload(signals[i], digest))
    ensures DecodeEach(items, SignalFromPayload) == Ok(signals)
       <==> forall i | 0 <= i < |signals| :: TrimmedSignal(signals[i])
  {
    EachDecoded(items, SignalFromPayload, signals);
    forall i | 0 <= i < |signals|
      ensures SignalFromPayload(items[i].fields) == Ok(signals[i]) <==> TrimmedSignal(signals[i])
    {
      SignalRoundTrip(signals[i], digest);
    }
  }

  lemma {:induction false} ItemsRead(p: Object, name: Field, items: seq<Json>)
    requires FieldOf(p, name) == List(items) && forall i | 0 <= i < |items| :: items[i].Dict?
    ensures ObjectItems(p, name) == Ok(items)
  {
  }

  lemma {:induction false} ContextCarriesOver(document: Document, chunks: seq<Chunk>, index: IndexState,
                                              signals: seq<Signal>, profile: Object, c: Command)
    requires ProducerContext(document, chunks, index, signals)
    requires RequiredText(profile, Tenant) == Ok(document.identity.tenant)
    requires RequiredText(profile, SourceVersion) == Ok(document.identity.version)
    requires RequiredText(profile, ContentDigest) == Ok(c.document.contentDigest)
    requires c.document.identity == document.identity && c.index == index && c.signals == signals
    requires |c.chunks| == |chunks| && forall i | 0 <= i < |chunks| ::
               && c.chunks[i].identity == chunks[i].identity
               && c.chunks[i].digests.content == c.document.contentDigest
               && c.chunks[i].digests.sourceInput == chunks[i].indexInputDigest
    ensures ConsumerContext(c, profile)
  {
  }

  lemma {:induction false} TrimmedContextCarriesOver(document: Document, chunks: seq<Chunk>, index: IndexState,
                                                     signals: seq<Signal>, spec: EmbeddingSpec, digests: Digests)
    requires ProducerContext(document, chunks, index, signals) && HexDigests(digests) && TrimmedDocument(document)
    ensures ConsumerContext(CommandOf(document, chunks, index, signals, spec, digests),
                            IndexPayload(document, index, digests.sha256(FullText(document))))
  {
    var digest := digests.sha256(FullText(document));
    IndexRoundTrip(document, index, digest);
    var c := CommandOf(document, chunks, index, signals, spec, digests);
    forall i | 0 <= i < |chunks| ensures c.chunks[i] == ProjectionOf(chunks[i], digest, spec, digests) {
    }
    ContextCarriesOver(document, chunks, index, signals, IndexPayload(document, index, digest), c);
  }

  lemma {:induction false} PayloadParts(document: Document, chunks: seq<Chunk>, index: IndexState, signals: seq<Signal>,
                                        spec: EmbeddingSpec, version: string, digests: Digests)
    ensures var p := IndexedPayload(document, chunks, index, signals, spec, version, digests);
            var digest := digests.sha256(FullText(document));
            && FieldOf(p, SourceDocument) == Dict(DocumentPayload(document, digest, digests.size(FullText(document))))
            && FieldOf(p, Chunks) == List(Each(chunks, c => Dict(ChunkPayload(c, digest, spec, version, digests))))
            && FieldOf(p, Profile) == Dict(IndexPayload(document, index, digest))
            && FieldOf(p, Signals) == List(Each(signals, s => Dict(SignalPayload(s, digest))))
  {
  }

  lemma {:induction false} ListsRoundTrip(p: Object, chunks: seq<Chunk>, signals: seq<Signal>, digest: string,
                                          spec: EmbeddingSpec, version: string, digests: Digests)
    requires HexDigests(digests) && Trimmed(digest)
    requires FieldOf(p, Chunks) == List(Each(chunks, c => Dict(ChunkPayload(c, digest, spec, version, digests))))
    requires FieldOf(p, Signals) == List(Each(signals, s => Dict(SignalPayload(s, digest))))
    ensures ChunksFromPayload(p, digests) == Ok(Each(chunks, c => ProjectionOf(c, digest, spec, digests)))
       <==> forall i | 0 <= i < |chunks| :: TrimmedChunk(chunks[i]) && TrimmedSpec(spec)
    ensures SignalsFromPayload(p) == Ok(signals) <==> forall i | 0 <= i < |signals| :: TrimmedSignal(signals[i])
  {
    ItemsRead(p, Chunks, FieldOf(p, Chunks).items);
    ItemsRead(p, Signals, FieldOf(p, Signals).items);
    ChunksRead(FieldOf(p, Chunks).items, chunks, digest, spec, version, digests);
    SignalsRead(FieldOf(p, Signals).items, signals, digest);
  }

  lemma {:induction false} CommandChecked(event: Event, profile: Object, document: Result<DocumentState>,
                                          chunks: Result<seq<ChunkProjection>>, index: Result<IndexState>,
                                          signals: Result<seq<Signal>>, c: Command)
    requires event.tenant == c.document.identity.tenant && event.sourceId == c.document.identity.documentId
    ensures CheckedCommand(event, profile, document, chunks, index, signals) == Ok(c) <==>
            && document == Ok(c.document) && chunks == Ok(c.chunks) && index == Ok(c.index) && signals == Ok(c.signals)
            && ConsumerContext(c, profile)
  {
  }

  lemma {:induction false} EventDecoded(event: Event, profile: Object, source: Object, document: Result<DocumentState>,
                                        chunks: Result<seq<ChunkProjection>>, index: Result<IndexState>,
                                        signals: Result<seq<Signal>>, digests: Digests)
    requires event.eventType == DocumentIndexed && event.sourceKind == DocumentSource
    requires FieldOf(event.payload, Profile) == Dict(profile) && FieldOf(event.payload, SourceDocument) == Dict(source)
    requires document == DocumentFromPayload(source) && chunks == ChunksFromPayload(event.payload, digests)
    requires index == IndexFromPayload(profile) && signals == SignalsFromPayload(event.payload)
    ensures CommandFromEvent(event, digests) == CheckedCommand(event, profile, document, chunks, index, signals)
  {
  }

  /** The parts of an event decode to those of its command exactly when they are trimmed. */
  lemma {:induction false} PartsRoundTrip(document: Document, chunks: seq<Chunk>, index: IndexState,
                                          signals: seq<Signal>, spec: EmbeddingSpec, version: string, digests: Digests,
                                          p: Object, digest: string, profile: Object, source: Object, c: Command)
    requires HexDigests(digests) && ProducerContext(document, chunks, index, signals)
    requires digest == digests.sha256(FullText(document)) && profile == IndexPayload(document, index, digest)
    requires source == DocumentPayload(document, digest, digests.size(FullText(document)))
    requires FieldOf(p, Chunks) == List(Each(chunks, c => Dict(ChunkPayload(c, digest, spec, version, digests))))
    requires FieldOf(p, Signals) == List(Each(signals, s => Dict(SignalPayload(s, digest))))
    requires c == CommandOf(document, chunks, index, signals, spec, digests)
    ensures TrimmedParts(document, chunks, index, signals, spec) <==>
            && DocumentFromPayload(source) == Ok(c.document) && ChunksFromPayload(p, digests) == Ok(c.chunks)
            && IndexFromPayload(profile) == Ok(c.index) && SignalsFromPayload(p) == Ok(c.signals)
            && ConsumerContext(c, profile)
  {
    DocumentRoundTrip(document, digest, digests.size(FullText(document)));
    ListsRoundTrip(p, chunks, signals, digest, spec, version, digests);
    if TrimmedDocument(document) {
      IndexRoundTrip(document, index, digest);
      TrimmedContextCarriesOver(document, chunks, index, signals, spec, digests);
    }
    assert chunks[0] in chunks;
    AllParts(document, chunks, index, signals, spec, DocumentFromPayload(source) == Ok(c.document),
             ChunksFromPayload(p, digests) == Ok(c.chunks), IndexFromPayload(profile) == Ok(c.index),
             SignalsFromPayload(p) == Ok(c.signals), ConsumerContext(c, profile));
  }

  lemma {:induction false} AllParts(document: Document, chunks: seq<Chunk>, index: IndexState, signals: seq<Signal>,
                                    spec: EmbeddingSpec, d: bool, cs: bool, i: bool, ss: bool, context: bool)
    requires chunks != [] && (d <==> TrimmedDocument(document))
    requires cs <==> forall i | 0 <= i < |chunks| :: TrimmedChunk(chunks[i]) && TrimmedSpec(spec)
    requires ss <==> forall i | 0 <= i < |signals| :: TrimmedSignal(signals[i])
    requires d ==> (i <==> TrimmedIndex(index)) && context
    ensures TrimmedParts(document, chunks, index, signals, spec) <==> d && cs && i && ss && context
  {
    assert cs ==> TrimmedChunk(chunks[0]) && TrimmedSpec(spec);
  }

  /**
   Every event the producer builds is accepted and decodes to the same document state, chunks, index
   state and signals, exactly when the texts it carries have nothing to strip.
   */
  lemma {:induction false} EventRoundTrip(document: Document, chunks: seq<Chunk>, index: IndexState,
                                          signals: seq<Signal>, spec: EmbeddingSpec, chunkingVersion: string,
                                          digests: Digests)
    requires HexDigests(digests)
    requires IndexedEvent(document, chunks, index, signals, spec, chunkingVersion, digests).Ok?
    ensures (CommandFromEvent(IndexedEvent(document, chunks, index, signals, spec, chunkingVersion, digests).value,
                              digests)
             == Ok(CommandOf(document, chunks, index, signals, spec, digests)))
       <==> TrimmedParts(document, chunks, index, signals, spec)
  {
    var event := IndexedEvent(document, chunks, index, signals, spec, chunkingVersion, digests).value;
    var p, digest := event.payload, digests.sha256(FullText(document));
    var profile := IndexPayload(document, index, digest);
    var source := DocumentPayload(document, digest, digests.size(FullText(document)));
    var c := CommandOf(document, chunks, index, signals, spec, digests);
    PayloadParts(document, chunks, index, signals, spec, Strip(chunkingVersion), digests);
    PartsRoundTrip(document, chunks, index, signals, spec, Strip(chunkingVersion), digests, p, digest, profile,
                   source, c);
    EventDecoded(event, profile, source, DocumentFromPayload(source), ChunksFromPayload(p, digests),
                 IndexFromPayload(profile), SignalsFromPayload(p), digests);
    CommandChecked(event, profile, DocumentFromPayload(source), ChunksFromPayload(p, digests),
                   IndexFromPayload(profile), SignalsFromPayload(p), c);
  }

  // The context check, whatever the texts are

  /** What the consumer reads of an identity: its texts without outer white space. */
  predicate ReadAs(i: Identity, read: Identity) {
    read.tenant == Strip(i.tenant) && read.documentId == Strip(i.documentId) && read.version == Strip(i.version)
  }

  lemma {:induction false} IdentityReadAs(p: Object, i: Identity)
    requires IdentityFields(p, i) && IdentityFromPayload(p).Ok?
    ensures ReadAs(i, IdentityFromPayload(p).value)
  {
  }

  lemma {:induction false} TextReadAs(p: Object, name: Field, s: string)
    requires FieldOf(p, name) == Text(s) && RequiredText(p, name).Ok?
    ensures RequiredText(p, name) == Ok(Strip(s))
  {
  }

  lemma {:induction false} DocumentReadAs(d: Document, contentDigest: string, contentSize: nat)
    requires Trimmed(contentDigest) && DocumentFromPayload(DocumentPayload(d, contentDigest, contentSize)).Ok?
    ensures var read := DocumentFromPayload(DocumentPayload(d, contentDigest, contentSize)).value;
            ReadAs(d.identity, read.identity) && read.contentDigest == contentDigest
  {
    var p := DocumentPayload(d, contentDigest, contentSize);
    DocumentPayloadFields(d, contentDigest, contentSize);
    DocumentPartsOk(IdentityFromPayload(p), RequiredText(p, ContentDigest),
                    RequiredNonNegativeWhole(p, ContentSizeBytes),
                    RequiredText(p, CreatedAt), RequiredText(p, UpdatedAt), OptionalContentText(p, Title),
                    MetadataField(p, Metadata));
    IdentityReadAs(p, d.identity);
    TextReadAs(p, ContentDigest, contentDigest);
  }

  lemma {:induction false} DocumentPartsOk(identity: Result<Identity>, contentDigest: Result<string>, size: Result<int>,
                                           createdAt: Result<string>, updatedAt: Result<string>,
                                           title: Result<Option<string>>, metadata: Result<Object>)
    requires DocumentOf(identity, contentDigest, size, createdAt, updatedAt, title, metadata).Ok?
    ensures var d := DocumentOf(identity, contentDigest, size, createdAt, updatedAt, title, metadata).value;
            identity == Ok(d.identity) && contentDigest == Ok(d.contentDigest)
  {
  }

  lemma {:induction false} ChunkReadAs(c: Chunk, contentDigest: string, spec: EmbeddingSpec, chunkingVersion: string,
                                       digests: Digests)
    requires Trimmed(contentDigest)
    requires ChunkFromPayload(ChunkPayload(c, contentDigest, spec, chunkingVersion, digests), digests).Ok?
    ensures var read := ChunkFromPayload(ChunkPayload(c, contentDigest, spec, chunkingVersion, digests), digests).value;
            && ReadAs(c.identity, read.identity) && read.digests.content == contentDigest
            && read.digests.sourceInput == Strip(c.indexInputDigest)
  {
    var p := ChunkPayload(c, contentDigest, spec, chunkingVersion, digests);
    ChunkPayloadIdentity(c, contentDigest, spec, chunkingVersion, digests);
    ChunkPayloadDigests(c, contentDigest, spec, chunkingVersion, digests);
    ChunkPartsOk(RequiredContentText(p, SearchText), IdentityFromPayload(p), ChunkDigestsFromPayload(p),
                 RequiredText(p, CreatedAt), RequiredText(p, UpdatedAt), RequiredText(p, ChunkId), PlaceFromPayload(p),
                 EmbeddingFromPayload(p), MetadataField(p, Metadata), digests.sha256);
    IdentityReadAs(p, c.identity);
    DigestsReadAs(p, ChunkDigests(contentDigest, c.indexInputDigest, digests.vector(digests.sha256(c.text), spec)));
  }

  lemma {:induction false} DigestsReadAs(p: Object, d: ChunkDigests)
    requires DigestFields(p, d) && ChunkDigestsFromPayload(p).Ok?
    ensures ChunkDigestsFromPayload(p).value.content == Strip(d.content)
    ensures ChunkDigestsFromPayload(p).value.sourceInput == Strip(d.sourceInput)
  {
  }

  lemma {:induction false} ChunkPartsOk(text: Result<string>, identity: Result<Identity>,
                                        chunkDigests: Result<ChunkDigests>, createdAt: Result<string>,
                                        updatedAt: Result<string>, id: Result<string>, place: Result<Place>,
                                        embedding: Result<EmbeddingSpec>, metadata: Result<Object>,
                                        hash: string -> string)
    requires ChunkOf(text, identity, chunkDigests, createdAt, updatedAt, id, place, embedding, metadata, hash).Ok?
    ensures var c :=
              ChunkOf(text, identity, chunkDigests, createdAt, updatedAt, id, place, embedding, metadata, hash).value;
            identity == Ok(c.identity) && chunkDigests == Ok(c.digests)
  {
  }

  lemma {:induction false} SignalReadAs(s: Signal, contentDigest: string)
    requires SignalFromPayload(SignalPayload(s, contentDigest)).Ok?
    ensures var read := SignalFromPayload(SignalPayload(s, contentDigest)).value;
            ReadAs(s.identity, read.identity) && read.signalInputDigest == Strip(s.signalInputDigest)
  {
    var p := SignalPayload(s, contentDigest);
    SignalPayloadIdentity(s, contentDigest);
    SignalPayloadAbout(s, contentDigest);
    SignalPartsOk(RequiredText(p, ContentDigest), AboutFromPayload(p), IdentityFromPayload(p), KindFromPayload(p),
                  RequiredText(p, SignalKey), RequiredContentText(p, TextField), MetadataField(p, Attributes),
                  EvidencesFromPayload(p), OptionalConfidence(p, Confidence), ExtractorFromPayload(p),
                  MetadataField(p, Metadata));
    IdentityReadAs(p, s.identity);
    AboutReadAs(p, s);
  }

  lemma {:induction false} AboutReadAs(p: Object, s: Signal)
    requires AboutFields(p, s) && AboutFromPayload(p).Ok?
    ensures AboutFromPayload(p).value.1 == Strip(s.signalInputDigest)
  {
  }

  lemma {:induction false} SignalPartsOk(contentDigest: Result<string>, about: Result<(string, string, string)>,
                                         identity: Result<Identity>, kind: Result<SignalKind>, key: Result<string>,
                                         text: Result<string>, attributes: Result<Object>,
                                         evidence: Result<seq<SignalEvidence>>, confidence: Result<Option<real>>,
                                         extractor: Result<Extractor>, metadata: Result<Object>)
    requires SignalOf(contentDigest, about, identity, kind, key, text, attributes, evidence, confidence, extractor,
                      metadata).Ok?
    ensures var s := SignalOf(contentDigest, about, identity, kind, key, text, attributes, evidence, confidence,
                              extractor, metadata).value;
            about.Ok? && about.value.1 == s.signalInputDigest && identity == Ok(s.identity)
  {
  }

  lemma {:induction false} IndexReadAs(d: Document, index: IndexState, contentDigest: string)
    requires Trimmed(contentDigest) && IndexFromPayload(IndexPayload(d, index, contentDigest)).Ok?
    ensures var p := IndexPayload(d, index, contentDigest);
            var read := IndexFromPayload(p).value;
            && read.documentId == Strip(index.documentId) && read.indexInputDigest == Strip(index.indexInputDigest)
            && read.signalInputDigest == Strip(index.signalInputDigest)
            && RequiredText(p, Tenant) == Ok(Strip(d.identity.tenant))
            && RequiredText(p, SourceVersion) == Ok(Strip(d.identity.version))
            && RequiredText(p, ContentDigest) == Ok(contentDigest)
  {
    var p := IndexPayload(d, index, contentDigest);
    IndexPayloadFields(d, index, contentDigest);
    IndexPayloadCheckedFields(d, index, contentDigest);
    TextReadAs(p, Tenant, d.identity.tenant);
    TextReadAs(p, SourceVersion, d.identity.version);
    TextReadAs(p, ContentDigest, contentDigest);
    KeptReadAs(p, index);
  }

  lemma {:induction false} KeptReadAs(p: Object, index: IndexState)
    requires IndexFields(p, index) && IndexKept(p).Ok?
    ensures IndexKept(p).value.documentId == Strip(index.documentId)
    ensures IndexKept(p).value.indexInputDigest == Strip(index.indexInputDigest)
    ensures IndexKept(p).value.signalInputDigest == Strip(index.signalInputDigest)
  {
  }

  lemma {:induction false} EachOk<T(!new)>(items: seq<Json>, decode: Object -> Result<T>)
    requires DecodeEach(items, decode).Ok?
    ensures |DecodeEach(items, decode).value| == |items|
    ensures forall i | 0 <= i < |items| ::
              items[i].Dict? && decode(items[i].fields) == Ok(DecodeEach(items, decode).value[i])
  {
    if items != [] {
      EachOk(items[1..], decode);
      assert forall i | 1 <= i < |items| :: items[i] == items[1..][i - 1];
    }
  }

  lemma {:induction false} ChunksReadAs(p: Object, chunks: seq<Chunk>, digest: string, spec: EmbeddingSpec,
                                        version: string, digests: Digests)
    requires Trimmed(digest) && ChunksFromPayload(p, digests).Ok?
    requires FieldOf(p, Chunks) == List(Each(chunks, c => Dict(ChunkPayload(c, digest, spec, version, digests))))
    ensures var read := ChunksFromPayload(p, digests).value;
            |read| == |chunks| && forall i | 0 <= i < |chunks| ::
              && ReadAs(chunks[i].identity, read[i].identity) && read[i].digests.content == digest
              && read[i].digests.sourceInput == Strip(chunks[i].indexInputDigest)
  {
    var items := FieldOf(p, Chunks).items;
    var decode := (q: Object) => ChunkFromPayload(q, digests);
    ItemsRead(p, Chunks, items);
    EachOk(items, decode);
    forall i | 0 <= i < |chunks|
      ensures var read := ChunksFromPayload(p, digests).value[i];
              && ReadAs(chunks[i].identity, read.identity) && read.digests.content == digest
              && read.digests.sourceInput == Strip(chunks[i].indexInputDigest)
    {
      assert items[i] == Dict(ChunkPayload(chunks[i], digest, spec, version, digests));
      ChunkReadAs(chunks[i], digest, spec, version, digests);
    }
  }

  lemma {:induction false} SignalsReadAs(p: Object, signals: seq<Signal>, digest: string)
    requires SignalsFromPayload(p).Ok?
    requires FieldOf(p, Signals) == List(Each(signals, s => Dict(SignalPayload(s, digest))))
    ensures var read := SignalsFromPayload(p).value;
            |read| == |signals| && forall i | 0 <= i < |signals| ::
              && ReadAs(signals[i].identity, read[i].identity)
              && read[i].signalInputDigest == Strip(signals[i].signalInputDigest)
  {
    var items := FieldOf(p, Signals).items;
    ItemsRead(p, Signals, items);
    EachOk(items, SignalFromPayload);
    forall i | 0 <= i < |signals|
      ensures var read := SignalsFromPayload(p).value[i];
              && ReadAs(signals[i].identity, read.identity)
              && read.signalInputDigest == Strip(signals[i].signalInputDigest)
    {
      assert items[i] == Dict(SignalPayload(signals[i], digest));
      SignalReadAs(signals[i], digest);
    }
  }

  lemma {:induction false} ReadContext(document: Document, chunks: seq<Chunk>, index: IndexState, signals: seq<Signal>,
                                       digest: string, profile: Object, c: Command)
    requires ProducerContext(document, chunks, index, signals)
    requires ReadAs(document.identity, c.document.identity) && c.document.contentDigest == digest
    requires RequiredText(profile, Tenant) == Ok(Strip(document.identity.tenant))
    requires RequiredText(profile, SourceVersion) == Ok(Strip(document.identity.version))
    requires RequiredText(profile, ContentDigest) == Ok(digest)
    requires c.index.documentId == Strip(index.documentId) && c.index.indexInputDigest == Strip(index.indexInputDigest)
    requires c.index.signalInputDigest == Strip(index.signalInputDigest)
    requires |c.chunks| == |chunks| && forall i | 0 <= i < |chunks| ::
               && ReadAs(chunks[i].identity, c.chunks[i].identity) && c.chunks[i].digests.content == digest
               && c.chunks[i].digests.sourceInput == Strip(chunks[i].indexInputDigest)
    requires |c.signals| == |signals| && forall i | 0 <= i < |signals| ::
               && ReadAs(signals[i].identity, c.signals[i].identity)
               && c.signals[i].signalInputDigest == Strip(signals[i].signalInputDigest)
    ensures ConsumerContext(c, profile)
  {
    forall i | 0 <= i < |chunks| ensures SameVersion(c.chunks[i].identity, c.document.identity) {
      ReadSameVersion(chunks[i].identity, document.identity, c.chunks[i].identity, c.document.identity);
    }
    forall i | 0 <= i < |signals| ensures SameVersion(c.signals[i].identity, c.document.identity) {
      ReadSameVersion(signals[i].identity, document.identity, c.signals[i].identity, c.document.identity);
    }
  }

  lemma {:induction false} ReadSameVersion(a: Identity, b: Identity, a': Identity, b': Identity)
    requires SameVersion(a, b) && ReadAs(a, a') && ReadAs(b, b')
    ensures SameVersion(a', b')
  {
  }

  /**
   The producer's context check implies the consumer's, trimmed texts or not: whenever the parts of an
   event decode at all, they pass it.
   */
  lemma {:induction false} ProducerContextImpliesConsumer(document: Document, chunks: seq<Chunk>, index: IndexState,
                                                          signals: seq<Signal>, spec: EmbeddingSpec, version: string,
                                                          digests: Digests)
    requires ProducerContext(document, chunks, index, signals) && HexDigests(digests)
    ensures var p := IndexedPayload(document, chunks, index, signals, spec, version, digests);
            var digest := digests.sha256(FullText(document));
            var profile := IndexPayload(document, index, digest);
            var d := DocumentFromPayload(DocumentPayload(document, digest, digests.size(FullText(document))));
            var (cs, i, ss) := (ChunksFromPayload(p, digests), IndexFromPayload(profile), SignalsFromPayload(p));
            d.Ok? && cs.Ok? && i.Ok? && ss.Ok? ==>
              ConsumerContext(Command(d.value, cs.value, i.value, ss.value), profile)
  {
    var p := IndexedPayload(document, chunks, index, signals, spec, version, digests);
    var digest := digests.sha256(FullText(document));
    var profile := IndexPayload(document, index, digest);
    var d := DocumentFromPayload(DocumentPayload(document, digest, digests.size(FullText(document))));
    var cs, i, ss := ChunksFromPayload(p, digests), IndexFromPayload(profile), SignalsFromPayload(p);
    PayloadParts(document, chunks, index, signals, spec, version, digests);
    if d.Ok? && cs.Ok? && i.Ok? && ss.Ok? {
      DocumentReadAs(document, digest, digests.size(FullText(document)));
      ChunksReadAs(p, chunks, digest, spec, version, digests);
      IndexReadAs(document, index, digest);
      SignalsReadAs(p, signals, digest);
      ReadContext(document, chunks, index, signals, digest, profile, Command(d.value, cs.value, i.value, ss.value));
    }
  }

  /**
   An event is accepted exactly when its parts decode and its tenant and document id, which name the
   event, have nothing to strip: blank texts, confidences out of range and those two are all that the
   consumer can refuse of what the producer builds.
   */
  lemma {:induction false} EventAccepted(document: Document, chunks: seq<Chunk>, index: IndexState,
                                         signals: seq<Signal>, spec: EmbeddingSpec, chunkingVersion: string,
                                         digests: Digests)
    requires HexDigests(digests)
    requires IndexedEvent(document, chunks, index, signals, spec, chunkingVersion, digests).Ok?
    ensures var event := IndexedEvent(document, chunks, index, signals, spec, chunkingVersion, digests).value;
            var digest := digests.sha256(FullText(document));
            CommandFromEvent(event, digests).Ok? <==>
            && DocumentFromPayload(DocumentPayload(document, digest, digests.size(FullText(document)))).Ok?
            && ChunksFromPayload(event.payload, digests).Ok?
            && IndexFromPayload(IndexPayload(document, index, digest)).Ok? && SignalsFromPayload(event.payload).Ok?
            && Trimmed(document.identity.tenant) && Trimmed(document.identity.documentId)
  {
    var event := IndexedEvent(document, chunks, index, signals, spec, chunkingVersion, digests).value;
    var p, digest := event.payload, digests.sha256(FullText(document));
    var profile := IndexPayload(document, index, digest);
    var source := DocumentPayload(document, digest, digests.size(FullText(document)));
    var version := Strip(chunkingVersion);
    PayloadParts(document, chunks, index, signals, spec, version, digests);
    ProducerContextImpliesConsumer(document, chunks, index, signals, spec, version, digests);
    EventDecoded(event, profile, source, DocumentFromPayload(source), ChunksFromPayload(p, digests),
                 IndexFromPayload(profile), SignalsFromPayload(p), digests);
    if DocumentFromPayload(source).Ok? {
      DocumentReadAs(document, digest, digests.size(FullText(document)));
    }
    CheckedOk(event, profile, DocumentFromPayload(source), ChunksFromPayload(p, digests), IndexFromPayload(profile),
              SignalsFromPayload(p));
  }

  lemma {:induction false} CheckedOk(event: Event, profile: Object, document: Result<DocumentState>,
                                     chunks: Result<seq<ChunkProjection>>, index: Result<IndexState>,
                                     signals: Result<seq<Signal>>)
    ensures CheckedCommand(event, profile, document, chunks, index, signals).Ok? <==>
            && document.Ok? && chunks.Ok? && index.Ok? && signals.Ok?
            && ConsumerContext(Command(document.value, chunks.value, index.value, signals.value), profile)
            && event.tenant == document.value.identity.tenant && event.sourceId == document.value.identity.documentId
  {
  }

  /** The chunk is of this version of the document, under its index digest. */
  predicate ChunkIsOf(c: Chunk, id: Identity, index: IndexState) {
    && c.identity.tenant == id.tenant && c.identity.documentId == id.documentId && c.identity.version == id.version
    && c.indexInputDigest == index.indexInputDigest
  }

  predicate SignalIsOf(s: Signal, id: Identity, index: IndexState) {
    && s.identity.tenant == id.tenant && s.identity.documentId == id.documentId && s.identity.version == id.version
    && s.signalInputDigest == index.signalInputDigest && s.generationVersion == index.generationVersion
  }

  lemma {:induction false} BlankIsStripped(s: string)
    ensures Blank(s) <==> Strip(s) == ""
  {
    StripCuts(s);
  }

  lemma {:induction false} ChunksAreOf(chunks: seq<Chunk>, id: Identity, index: IndexState)
    ensures (forall c | c in chunks :: ChunkIsOf(c, id, index))
       <==> forall i | 0 <= i < |chunks| ::
              SameVersion(chunks[i].identity, id) && chunks[i].indexInputDigest == index.indexInputDigest
  {
    if forall c | c in chunks :: ChunkIsOf(c, id, index) {
      forall i | 0 <= i < |chunks| ensures ChunkIsOf(chunks[i], id, index) {
        assert chunks[i] in chunks;
      }
    }
  }

  lemma {:induction false} SignalsAreOf(signals: seq<Signal>, id: Identity, index: IndexState)
    ensures (forall s | s in signals :: SignalIsOf(s, id, index))
       <==> forall i | 0 <= i < |signals| ::
              SameVersion(signals[i].identity, id) && signals[i].signalInputDigest == index.signalInputDigest
              && signals[i].generationVersion == index.generationVersion
  {
    if forall s | s in signals :: SignalIsOf(s, id, index) {
      forall i | 0 <= i < |signals| ensures SignalIsOf(signals[i], id, index) {
        assert signals[i] in signals;
      }
    }
  }

  lemma {:induction false} ContextParts(document: Document, chunks: seq<Chunk>, index: IndexState, signals: seq<Signal>)
    ensures var id := document.identity;
            ProducerContext(document, chunks, index, signals) <==>
            && Strip(id.tenant) != "" && Strip(id.documentId) != "" && Strip(id.version) != ""
            && Strip(index.indexInputDigest) != "" && Strip(index.signalInputDigest) != ""
            && Strip(index.generationVersion) != "" && index.documentId == id.documentId && |chunks| > 0
            && (forall c | c in chunks :: ChunkIsOf(c, id, index))
            && (forall s | s in signals :: SignalIsOf(s, id, index))
  {
    ChunksAreOf(chunks, document.identity, index);
    SignalsAreOf(signals, document.identity, index);
  }

  /**
   The producer builds an event exactly for a document that names itself and has chunks, an index state
   of that document with its digests, and chunks and signals of that very version and index state.
   */
  lemma {:induction false} EventIsBuilt(document: Document, chunks: seq<Chunk>, index: IndexState, signals: seq<Signal>,
                                        spec: EmbeddingSpec, chunkingVersion: string, digests: Digests)
    ensures var id := document.identity;
            IndexedEvent(document, chunks, index, signals, spec, chunkingVersion, digests).Ok? <==>
            && !Blank(id.tenant) && !Blank(id.documentId) && !Blank(id.version) && !Blank(chunkingVersion)
            && !Blank(index.indexInputDigest) && !Blank(index.signalInputDigest) && !Blank(index.generationVersion)
            && index.documentId == id.documentId && |chunks| > 0
            && (forall c | c in chunks :: ChunkIsOf(c, id, index))
            && (forall s | s in signals :: SignalIsOf(s, id, index))
  {
    ContextParts(document, chunks, index, signals);
    BlankIsStripped(document.identity.tenant);
    BlankIsStripped(document.identity.documentId);
    BlankIsStripped(document.identity.version);
    BlankIsStripped(chunkingVersion);
    BlankIsStripped(index.indexInputDigest);
    BlankIsStripped(index.signalInputDigest);
    BlankIsStripped(index.generationVersion);
  }

  /** Whatever event arrives, what the consumer accepts is about the event's document, one version and one index. */
  lemma {:induction false} AcceptedIsConsistent(event: Event, digests: Digests)
    requires CommandFromEvent(event, digests).Ok?
    ensures event.eventType == DocumentIndexed && event.sourceKind == DocumentSource
    ensures var c := CommandFromEvent(event, digests).value;
            && c.document.identity.tenant == event.tenant && c.document.identity.documentId == event.sourceId
            && c.index.documentId == event.sourceId
            && (forall x | x in c.chunks ::
                  && x.identity.tenant == event.tenant && x.identity.documentId == event.sourceId
                  && x.identity.version == c.document.identity.version
                  && x.digests.content == c.document.contentDigest
                  && x.digests.sourceInput == c.index.indexInputDigest)
            && (forall s | s in c.signals ::
                  && s.identity.tenant == event.tenant && s.identity.documentId == event.sourceId
                  && s.identity.version == c.document.identity.version
                  && s.signalInputDigest == c.index.signalInputDigest)
  {
    var profile, source := event.payload[Profile].fields, event.payload[SourceDocument].fields;
    var d, cs := DocumentFromPayload(source), ChunksFromPayload(event.payload, digests);
    var i, ss := IndexFromPayload(profile), SignalsFromPayload(event.payload);
    CheckedIsConsistent(event, profile, d, cs, i, ss);
  }

  lemma {:induction false} CheckedIsConsistent(event: Event, profile: Object, document: Result<DocumentState>,
                                               chunks: Result<seq<ChunkProjection>>, index: Result<IndexState>,
                                               signals: Result<seq<Signal>>)
    requires CheckedCommand(event, profile, document, chunks, index, signals).Ok?
    ensures var c := CheckedCommand(event, profile, document, chunks, index, signals).value;
            && c.document.identity.tenant == event.tenant && c.document.identity.documentId == event.sourceId
            && c.index.documentId == event.sourceId
            && (forall x | x in c.chunks ::
                  && x.identity.tenant == event.tenant && x.identity.documentId == event.sourceId
                  && x.identity.version == c.document.identity.version
                  && x.digests.content == c.document.contentDigest
                  && x.digests.sourceInput == c.index.indexInputDigest)
            && (forall s | s in c.signals ::
                  && s.identity.tenant == event.tenant && s.identity.documentId == event.sourceId
                  && s.identity.version == c.document.identity.version
                  && s.signalInputDigest == c.index.signalInputDigest)
  {
  }
}
