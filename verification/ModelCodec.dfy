/**
 The type-directed JSON codec of checkpoints and stored results. Models are written with their type
 name; tuples, timestamps and enum members are written as plain JSON and come back by the annotation
 of the field that holds them.
 */
module ModelCodec {
  import opened Common

  datatype Key = TextKey(text: string) | EnumKey(enumName: string, member: string)

  datatype Entry = Entry(key: Key, value: Value)

  /** A Python value. Dictionaries and models list their entries in order. */
  datatype Value =
    | Null
    | Bool(b: bool)
    | Num(n: real)
    | Str(s: string)
    | Enum(enumName: string, member: string)
    | Time(t: int)
    | List(items: seq<Value>)
    | Tuple(elements: seq<Value>)
    | Dict(entries: seq<Entry>)
    | Model(name: string, fields: seq<Entry>)

  datatype Field = Field(key: string, value: Json)

  datatype Json =
    | JNull
    | JBool(b: bool)
    | JNum(n: real)
    | JStr(s: string)
    | JList(items: seq<Json>)
    | JDict(fields: seq<Field>)

  /** A field annotation, by what it makes the codec do. `Plain` stands for every annotation that coerces nothing. */
  datatype Annotation =
    | Plain
    | NoneType
    | Timestamp
    | EnumOf(enumName: string)
    | TupleOf(item: Annotation)
    | Union(options: seq<Annotation>)

  datatype FieldType = FieldType(name: string, annotation: Annotation)

  /** The model whose dictionary field gets enum keys back after decoding. */
  datatype ArtifactHook = ArtifactHook(model: string, field: string, enumName: string)

  datatype Codec = Codec(
    models: map<string, seq<FieldType>>, enums: map<string, set<string>>,
    typeKey: string, valueKey: string, hook: Option<ArtifactHook>,
    isoFormat: int -> string, fromIsoFormat: string -> Option<int>)

  ghost predicate WellFormed(c: Codec) {
    && c.typeKey != c.valueKey
    && (forall t :: c.fromIsoFormat(c.isoFormat(t)) == Some(t))
    && (c.hook.Some? ==> c.hook.value.enumName in c.enums)
  }

  // Encoding

  function KeyText(key: Key): string {
    match key
    case TextKey(text) => text
    case EnumKey(_, member) => member
  }

  function Encode(c: Codec, v: Value): Result<Json>
    decreases v, 1
  {
    match v
    case Null => Ok(JNull)
    case Bool(b) => Ok(JBool(b))
    case Num(n) => Ok(JNum(n))
    case Str(s) => Ok(JStr(s))
    case Enum(_, member) => Ok(JStr(member))
    case Time(t) => Ok(JStr(c.isoFormat(t)))
    case List(items) => var encoded :- EncodeAll(c, items); Ok(JList(encoded))
    case Tuple(elements) => var encoded :- EncodeAll(c, elements); Ok(JList(encoded))
    case Dict(entries) => var encoded :- EncodeEntries(c, entries); Ok(JDict(encoded))
    case Model(name, fields) =>
      if name !in c.models then Err("Unsupported JSON type")
      else
        var encoded :- EncodeEntries(c, fields);
        Ok(JDict([Field(c.typeKey, JStr(name)), Field(c.valueKey, JDict(encoded))]))
  }

  function EncodeAll(c: Codec, vs: seq<Value>): Result<seq<Json>>
    decreases vs, 0
  {
    if vs == [] then Ok([])
    else
      var first :- Encode(c, vs[0]);
      var rest :- EncodeAll(c, vs[1..]);
      Ok([first] + rest)
  }

  function EncodeEntries(c: Codec, entries: seq<Entry>): Result<seq<Field>>
    decreases entries, 0
  {
    if entries == [] then Ok([])
    else
      assert entries[0].value < entries[0];
      var first :- Encode(c, entries[0].value);
      var rest :- EncodeEntries(c, entries[1..]);
      Ok([Field(KeyText(entries[0].key), first)] + rest)
  }

  // Decoding

  function Lookup(fields: seq<Field>, key: string): Option<Json>
    ensures Lookup(fields, key).Some? ==> exists f | f in fields :: f.value == Lookup(fields, key).value
  {
    if fields == [] then None
    else if fields[0].key == key then Some(fields[0].value)
    else Lookup(fields[1..], key)
  }

  predicate Reserved(c: Codec, fields: seq<Field>) {
    Lookup(fields, c.typeKey).Some? && Lookup(fields, c.valueKey).Some?
  }

  function Restore(c: Codec, j: Json): Result<Value>
    decreases j, 1
  {
    match j
    case JNull => Ok(Null)
    case JBool(b) => Ok(Bool(b))
    case JNum(n) => Ok(Num(n))
    case JStr(s) => Ok(Str(s))
    case JList(items) => var restored :- RestoreAll(c, items); Ok(List(restored))
    case JDict(fields) =>
      if Reserved(c, fields) then
        match (Lookup(fields, c.typeKey).value, Lookup(fields, c.valueKey).value)
        case (JStr(name), JDict(raw)) =>
          if name !in c.models then Err("Unsupported JSON type")
          else
            var restored :- RestoreFields(c, raw, c.models[name]);
            var hooked :- PostDecode(c, name, restored);
            Construct(c, name, hooked)
        case _ => Err("JSON type must be a string and JSON value a dictionary")
      else
        var restored :- RestoreFields(c, fields, []);
        Ok(Dict(restored))
  }

  function RestoreAll(c: Codec, js: seq<Json>): Result<seq<Value>>
    decreases js, 0
  {
    if js == [] then Ok([])
    else
      var first :- Restore(c, js[0]);
      var rest :- RestoreAll(c, js[1..]);
      Ok([first] + rest)
  }

  /** Restores the values of a dictionary and coerces each by the annotation of its field, if it has one. */
  function RestoreFields(c: Codec, fields: seq<Field>, types: seq<FieldType>): Result<seq<Entry>>
    decreases fields, 0
  {
    if fields == [] then Ok([])
    else
      var restored :- Restore(c, fields[0].value);
      var first :- Coerce(c, restored, Hint(types, fields[0].key));
      var rest :- RestoreFields(c, fields[1..], types);
      Ok([Entry(TextKey(fields[0].key), first)] + rest)
  }

  function Hint(types: seq<FieldType>, name: string): Annotation {
    if types == [] then Plain
    else if types[0].name == name then types[0].annotation
    else Hint(types[1..], name)
  }

  function Coerce(c: Codec, v: Value, annotation: Annotation): Result<Value>
    decreases annotation, 1, v
  {
    match annotation
    case Union(options) => CoerceFirst(c, v, options)
    case TupleOf(item) =>
      if v.List? then var coerced :- CoerceAll(c, v.items, item); Ok(Tuple(coerced)) else Ok(v)
    case Timestamp =>
      if v.Str? then
        match c.fromIsoFormat(v.s) case Some(t) => Ok(Time(t)) case None => Err("Invalid isoformat string")
      else Ok(v)
    case EnumOf(enumName) =>
      if v.Str? then
        if enumName in c.enums && v.s in c.enums[enumName] then Ok(Enum(enumName, v.s)) else Err("not a valid member")
      else Ok(v)
    case _ => Ok(v)
  }

  function CoerceAll(c: Codec, vs: seq<Value>, item: Annotation): Result<seq<Value>>
    decreases item, 2, vs
  {
    if vs == [] then Ok([])
    else
      var first :- Coerce(c, vs[0], item);
      var rest :- CoerceAll(c, vs[1..], item);
      Ok([first] + rest)
  }

  /** The first option of a union that changes the value decides. */
  function CoerceFirst(c: Codec, v: Value, options: seq<Annotation>): Result<Value>
    decreases options, 0, v
  {
    if options == [] then Ok(v)
    else
      var coerced :- Coerce(c, v, options[0]);
      if coerced != v then Ok(coerced) else CoerceFirst(c, v, options[1..])
  }

  function ArtifactKey(c: Codec, enumName: string, key: Key): Key {
    if key.TextKey? && enumName in c.enums && key.text in c.enums[enumName] then EnumKey(enumName, key.text) else key
  }

  function ArtifactKeys(c: Codec, enumName: string, entries: seq<Entry>): seq<Entry> {
    seq(|entries|, i requires 0 <= i < |entries| =>
      Entry(ArtifactKey(c, enumName, entries[i].key), entries[i].value))
  }

  predicate IsHooked(c: Codec, name: string) {
    c.hook.Some? && c.hook.value.model == name
  }

  function PostDecode(c: Codec, name: string, fields: seq<Entry>): Result<seq<Entry>> {
    if IsHooked(c, name) then HookFields(c, c.hook.value, fields) else Ok(fields)
  }

  function HookFields(c: Codec, hook: ArtifactHook, fields: seq<Entry>): Result<seq<Entry>> {
    if fields == [] then Ok([])
    else
      var first :- HookField(c, hook, fields[0]);
      var rest :- HookFields(c, hook, fields[1..]);
      Ok([first] + rest)
  }

  function HookField(c: Codec, hook: ArtifactHook, field: Entry): Result<Entry> {
    if field.key != TextKey(hook.field) then Ok(field)
    else if !field.value.Dict? then Err("Workflow artifacts checkpoint must contain dictionary items.")
    else Ok(Entry(field.key, Dict(ArtifactKeys(c, hook.enumName, field.value.entries))))
  }

  /** The constructor takes exactly the declared fields. */
  function Construct(c: Codec, name: string, fields: seq<Entry>): Result<Value>
    requires name in c.models
  {
    if |fields| == |c.models[name]| && forall i | 0 <= i < |fields| :: fields[i].key == TextKey(c.models[name][i].name)
    then Ok(Model(name, fields))
    else Err("unexpected or missing field")
  }

  /** What becomes of a JSON value in a field with this annotation. */
  function Decode(c: Codec, j: Json, annotation: Annotation): Result<Value> {
    var restored :- Restore(c, j);
    Coerce(c, restored, annotation)
  }

  // Well-typed values

  predicate IsText(v: Value) {
    v.Str? || v.Enum? || v.Time?
  }

  predicate IsListLike(v: Value) {
    v.List? || v.Tuple?
  }

  /** The option leaves alone what the value is written as. */
  predicate Inert(v: Value, option: Annotation) {
    match option
    case Timestamp => !IsText(v)
    case EnumOf(_) => !IsText(v)
    case TupleOf(_) => !IsListLike(v)
    case Union(_) => false
    case _ => true
  }

  predicate Coerces(option: Annotation) {
    option.Timestamp? || option.EnumOf? || option.TupleOf?
  }

  /** No option before the value's own takes it over, and none at all if its own leaves it as written. */
  predicate Selects(v: Value, options: seq<Annotation>, i: nat)
    requires i < |options|
  {
    && !options[i].Union?
    && (forall j | 0 <= j < i :: Inert(v, options[j]))
    && (!Coerces(options[i]) ==> forall j | 0 <= j < |options| :: Inert(v, options[j]))
  }

  predicate HasType(c: Codec, v: Value, annotation: Annotation)
    decreases v, annotation, 1
  {
    match annotation
    case NoneType => v.Null?
    case Timestamp => v.Time?
    case EnumOf(enumName) =>
      v.Enum? && v.enumName == enumName && enumName in c.enums && v.member in c.enums[enumName]
    case TupleOf(item) => v.Tuple? && AllHaveType(c, v.elements, item)
    case Union(options) => exists i | 0 <= i < |options| :: Selects(v, options, i) && HasType(c, v, options[i])
    case Plain =>
      match v
      case Null => true
      case Bool(_) => true
      case Num(_) => true
      case Str(_) => true
      case List(items) => AllHaveType(c, items, Plain)
      case Dict(entries) => (forall e | e in entries :: e.key.TextKey?) && EntriesHaveType(c, entries)
      case Model(name, fields) =>
        name in c.models && FieldsHaveType(c, fields, c.models[name], if IsHooked(c, name) then c.hook else None)
      case _ => false
  }

  predicate AllHaveType(c: Codec, vs: seq<Value>, item: Annotation)
    decreases vs, item, 0
  {
    vs != [] ==> HasType(c, vs[0], item) && AllHaveType(c, vs[1..], item)
  }

  predicate EntriesHaveType(c: Codec, entries: seq<Entry>)
    decreases entries, Plain, 0
  {
    entries != [] ==>
      && (assert entries[0].value < entries[0]; HasType(c, entries[0].value, Plain))
      && EntriesHaveType(c, entries[1..])
  }

  predicate IsArtifactField(hook: Option<ArtifactHook>, name: string) {
    hook.Some? && hook.value.field == name
  }

  /** The fields of a model, in their declared order; artifact dictionaries have enum keys. */
  predicate FieldsHaveType(c: Codec, fields: seq<Entry>, types: seq<FieldType>, hook: Option<ArtifactHook>)
    decreases fields, Plain, 0
  {
    && |fields| == |types|
    && (fields != [] ==>
          && fields[0].key == TextKey(types[0].name)
          && (forall t | t in types[1..] :: t.name != types[0].name)
          && (assert fields[0].value < fields[0]; if IsArtifactField(hook, types[0].name) then
                && fields[0].value.Dict? && types[0].annotation == Plain
                && (forall e | e in fields[0].value.entries ::
                      && e.key.EnumKey? && e.key.enumName == hook.value.enumName
                      && e.key.enumName in c.enums && e.key.member in c.enums[e.key.enumName])
                && EntriesHaveType(c, fields[0].value.entries)
              else HasType(c, fields[0].value, types[0].annotation))
          && FieldsHaveType(c, fields[1..], types[1..], hook))
  }

  /** No dictionary, at any depth, holds both the type key and the value key. */
  predicate Clean(c: Codec, v: Value)
    decreases v, 1
  {
    match v
    case List(items) => AllClean(c, items)
    case Tuple(elements) => AllClean(c, elements)
    case Dict(entries) => !HoldsBothKeys(c, entries) && EntriesClean(c, entries)
    case Model(_, fields) => EntriesClean(c, fields)
    case _ => true
  }

  predicate HoldsBothKeys(c: Codec, entries: seq<Entry>) {
    && (exists e | e in entries :: KeyText(e.key) == c.typeKey)
    && (exists e | e in entries :: KeyText(e.key) == c.valueKey)
  }

  predicate AllClean(c: Codec, vs: seq<Value>)
    decreases vs, 0
  {
    vs != [] ==> Clean(c, vs[0]) && AllClean(c, vs[1..])
  }

  predicate EntriesClean(c: Codec, entries: seq<Entry>)
    decreases entries, 0
  {
    entries != [] ==>
      && (assert entries[0].value < entries[0]; Clean(c, entries[0].value))
      && EntriesClean(c, entries[1..])
  }

  // Coercion

  lemma {:induction false} PlainCoercesNothing(c: Codec, vs: seq<Value>)
    ensures CoerceAll(c, vs, Plain) == Ok(vs)
  {
    if vs != [] {
      PlainCoercesNothing(c, vs[1..]);
      assert vs == [vs[0]] + vs[1..];
    }
  }

  /** The restored form shows whether the value was written as text or as a list. */
  ghost predicate WrittenLike(v: Value, restored: Value) {
    (restored.Str? <==> IsText(v)) && (restored.List? <==> IsListLike(v))
  }

  lemma {:induction false} RestoredIsWrittenLike(c: Codec, v: Value)
    requires Encode(c, v).Ok? && Restore(c, Encode(c, v).value).Ok?
    ensures WrittenLike(v, Restore(c, Encode(c, v).value).value)
  {
    var j := Encode(c, v).value;
    if j.JDict? {
      RestoredObject(c, j.fields);
    }
  }

  lemma {:induction false} RestoredObject(c: Codec, fields: seq<Field>)
    ensures var restored := Restore(c, JDict(fields));
            restored.Ok? ==> restored.value.Dict? || restored.value.Model?
  {
  }

  lemma {:induction false} CoerceFirstSelects(c: Codec, v: Value, r: Value, options: seq<Annotation>, i: nat)
    requires i < |options| && Selects(v, options, i) && HasType(c, v, options[i]) && WrittenLike(v, r)
    ensures CoerceFirst(c, r, options) == Coerce(c, r, options[i])
    decreases |options|
  {
    if i > 0 {
      assert Inert(v, options[0]);
      assert forall j | 0 <= j < |options| - 1 :: options[1..][j] == options[j + 1];
      CoerceFirstSelects(c, v, r, options[1..], i - 1);
    } else if !Coerces(options[0]) {
      AllInert(c, v, r, options);
    }
  }

  lemma {:induction false} AllInert(c: Codec, v: Value, r: Value, options: seq<Annotation>)
    requires WrittenLike(v, r) && forall j | 0 <= j < |options| :: Inert(v, options[j])
    ensures CoerceFirst(c, r, options) == Ok(r)
    decreases |options|
  {
    if options != [] {
      assert Inert(v, options[0]);
      AllInert(c, v, r, options[1..]);
    }
  }

  lemma {:induction false} ConsEqual<T>(a: T, x: seq<T>, b: T, y: seq<T>)
    ensures ([a] + x)[0] == a && ([a] + x)[1..] == x
    ensures [a] + x == [b] + y <==> a == b && x == y
  {
    assert ([b] + y)[0] == b && ([b] + y)[1..] == y;
  }

  // Keys

  function Textual(entries: seq<Entry>): seq<Entry> {
    if entries == [] then [] else [Entry(TextKey(KeyText(entries[0].key)), entries[0].value)] + Textual(entries[1..])
  }

  lemma {:induction false} TextualOfText(entries: seq<Entry>)
    requires forall e | e in entries :: e.key.TextKey?
    ensures Textual(entries) == entries
  {
    if entries != [] {
      TextualOfText(entries[1..]);
    }
  }

  lemma {:induction false} EncodedKeys(c: Codec, entries: seq<Entry>, key: string)
    requires EncodeEntries(c, entries).Ok?
    ensures Lookup(EncodeEntries(c, entries).value, key).Some? <==> exists e | e in entries :: KeyText(e.key) == key
  {
    if entries != [] {
      EncodedKeys(c, entries[1..], key);
      assert forall e | e in entries :: e == entries[0] || e in entries[1..];
      assert entries[0] in entries;
    }
  }

  lemma {:induction false} HintOf(types: seq<FieldType>, name: string, i: nat)
    requires i < |types| && types[i].name == name && forall j | 0 <= j < i :: types[j].name != name
    ensures Hint(types, name) == types[i].annotation
  {
    if i > 0 {
      HintOf(types[1..], name, i - 1);
    }
  }

  lemma {:induction false} DeclaredOnce(c: Codec, fields: seq<Entry>, types: seq<FieldType>, hook: Option<ArtifactHook>,
                                        i: nat, j: nat)
    requires FieldsHaveType(c, fields, types, hook) && i < j < |types|
    ensures types[i].name != types[j].name
  {
    if i == 0 {
      assert types[j] == types[1..][j - 1];
    } else {
      DeclaredOnce(c, fields[1..], types[1..], hook, i - 1, j - 1);
    }
  }

  lemma {:induction false} RestoredKeys(c: Codec, fields: seq<Field>, types: seq<FieldType>)
    requires RestoreFields(c, fields, types).Ok?
    ensures var entries := RestoreFields(c, fields, types).value;
            |entries| == |fields| && forall i | 0 <= i < |fields| :: entries[i].key == TextKey(fields[i].key)
  {
    if fields != [] {
      RestoredKeys(c, fields[1..], types);
    }
  }

  // The round trip

  /**
   A well-typed value can always be encoded, and it comes back as it was exactly when none of its
   dictionaries holds both the type key and the value key.
   */
  lemma {:induction false} RoundTrip(c: Codec, v: Value, annotation: Annotation)
    requires WellFormed(c) && HasType(c, v, annotation)
    ensures Encode(c, v).Ok?
    ensures Decode(c, Encode(c, v).value, annotation) == Ok(v) <==> Clean(c, v)
    decreases v, annotation, 1
  {
    match annotation
    case Union(options) =>
      var i :| 0 <= i < |options| && Selects(v, options, i) && HasType(c, v, options[i]);
      RoundTrip(c, v, options[i]);
      if r :| Restore(c, Encode(c, v).value) == Ok(r) {
        RestoredIsWrittenLike(c, v);
        CoerceFirstSelects(c, v, r, options, i);
      }
    case TupleOf(item) => AllRoundTrip(c, v.elements, item);
    case Plain =>
      match v {
        case List(items) =>
          AllRoundTrip(c, items, Plain);
          if rs :| RestoreAll(c, EncodeAll(c, items).value) == Ok(rs) {
            PlainCoercesNothing(c, rs);
          }
        case Dict(entries) =>
          DictRoundTrip(c, entries);
          TextualOfText(entries);
        case Model(name, fields) => ModelRoundTrip(c, name, fields);
        case _ =>
      }
    case _ =>
  }

  lemma {:induction false} AllRoundTrip(c: Codec, vs: seq<Value>, item: Annotation)
    requires WellFormed(c) && AllHaveType(c, vs, item)
    ensures EncodeAll(c, vs).Ok?
    ensures var restored := RestoreAll(c, EncodeAll(c, vs).value);
            (restored.Ok? && CoerceAll(c, restored.value, item) == Ok(vs)) <==> AllClean(c, vs)
    decreases vs, item, 0
  {
    if vs != [] {
      RoundTrip(c, vs[0], item);
      AllRoundTrip(c, vs[1..], item);
      assert vs == [vs[0]] + vs[1..];
      var first, rest := Encode(c, vs[0]).value, EncodeAll(c, vs[1..]).value;
      ConsEqual(first, rest, first, rest);
      if Restore(c, first).Ok? && RestoreAll(c, rest).Ok? {
        var r, rs := Restore(c, first).value, RestoreAll(c, rest).value;
        ConsEqual(r, rs, r, rs);
        if Coerce(c, r, item).Ok? && CoerceAll(c, rs, item).Ok? {
          ConsEqual(Coerce(c, r, item).value, CoerceAll(c, rs, item).value, vs[0], vs[1..]);
        }
      }
    }
  }

  lemma {:induction false} EntriesRoundTrip(c: Codec, entries: seq<Entry>)
    requires WellFormed(c) && EntriesHaveType(c, entries)
    ensures EncodeEntries(c, entries).Ok?
    ensures RestoreFields(c, EncodeEntries(c, entries).value, []) == Ok(Textual(entries)) <==> EntriesClean(c, entries)
    decreases entries, Plain, 0
  {
    if entries != [] {
      assert entries[0].value < entries[0];
      RoundTrip(c, entries[0].value, Plain);
      EntriesRoundTrip(c, entries[1..]);
      var key := KeyText(entries[0].key);
      var first, rest := Field(key, Encode(c, entries[0].value).value), EncodeEntries(c, entries[1..]).value;
      ConsEqual(first, rest, first, rest);
      if Restore(c, first.value).Ok? && RestoreFields(c, rest, []).Ok? {
        ConsEqual(Entry(TextKey(key), Restore(c, first.value).value), RestoreFields(c, rest, []).value,
                  Entry(TextKey(key), entries[0].value), Textual(entries[1..]));
      }
    }
  }

  lemma {:induction false} CleanDictionary(c: Codec, entries: seq<Entry>)
    requires EncodeEntries(c, entries).Ok?
    ensures Clean(c, Dict(entries)) <==> !Reserved(c, EncodeEntries(c, entries).value) && EntriesClean(c, entries)
  {
    EncodedKeys(c, entries, c.typeKey);
    EncodedKeys(c, entries, c.valueKey);
  }

  lemma {:induction false} DictRoundTrip(c: Codec, entries: seq<Entry>)
    requires WellFormed(c) && EntriesHaveType(c, entries)
    ensures Encode(c, Dict(entries)).Ok?
    ensures Restore(c, Encode(c, Dict(entries)).value) == Ok(Dict(Textual(entries))) <==> Clean(c, Dict(entries))
    decreases entries, Plain, 1
  {
    EntriesRoundTrip(c, entries);
    CleanDictionary(c, entries);
    RestoredDictionary(c, EncodeEntries(c, entries).value);
  }

  /** A dictionary with both keys is taken for a model, any other comes back as a dictionary. */
  lemma {:induction false} RestoredDictionary(c: Codec, fields: seq<Field>)
    ensures var restored := Restore(c, JDict(fields));
            if Reserved(c, fields) then restored.Ok? ==> restored.value.Model?
            else restored == (var entries :- RestoreFields(c, fields, []); Ok(Dict(entries)))
  {
  }

  /** After restoring and coercing the fields, and running the hook if there is one. */
  function Hooked(c: Codec, hook: Option<ArtifactHook>, restored: Result<seq<Entry>>): Result<seq<Entry>> {
    var fields :- restored;
    if hook.Some? then HookFields(c, hook.value, fields) else Ok(fields)
  }

  lemma {:induction false} FieldsRoundTrip(c: Codec, fields: seq<Entry>, types: seq<FieldType>,
                                           hook: Option<ArtifactHook>, all: seq<FieldType>)
    requires WellFormed(c) && FieldsHaveType(c, fields, types, hook)
    requires forall i | 0 <= i < |types| :: Hint(all, types[i].name) == types[i].annotation
    ensures EncodeEntries(c, fields).Ok?
    ensures Hooked(c, hook, RestoreFields(c, EncodeEntries(c, fields).value, all)) == Ok(fields)
            <==> EntriesClean(c, fields)
    decreases fields, Plain, 0
  {
    if fields != [] {
      assert Hint(all, types[0].name) == types[0].annotation;
      assert forall i | 0 <= i < |types[1..]| :: types[1..][i] == types[i + 1];
      FieldsRoundTrip(c, fields[1..], types[1..], hook, all);
      FieldRoundTrip(c, fields[0], types[0], hook);
      assert fields == [fields[0]] + fields[1..];
      var name := types[0].name;
      var first, rest := Field(name, Encode(c, fields[0].value).value), EncodeEntries(c, fields[1..]).value;
      ConsEqual(first, rest, first, rest);
      HookedCons(c, hook, name, Decode(c, first.value, types[0].annotation), RestoreFields(c, rest, all),
                 fields[0], fields[1..]);
      assert RestoreFields(c, [first] + rest, all)
          == Consed(name, Decode(c, first.value, types[0].annotation), RestoreFields(c, rest, all));
    }
  }

  function Consed(name: string, decoded: Result<Value>, others: Result<seq<Entry>>): Result<seq<Entry>> {
    var v :- decoded;
    var rest :- others;
    Ok([Entry(TextKey(name), v)] + rest)
  }

  /** Fields come back as they were exactly when the first one does and the others do. */
  lemma {:induction false} HookedCons(c: Codec, hook: Option<ArtifactHook>, name: string, decoded: Result<Value>,
                                      others: Result<seq<Entry>>, field: Entry, fields: seq<Entry>)
    ensures Hooked(c, hook, Consed(name, decoded, others)) == Ok([field] + fields)
       <==> HookedField(c, hook, name, decoded) == Ok(field) && Hooked(c, hook, others) == Ok(fields)
  {
    if decoded.Ok? && others.Ok? {
      var e := Entry(TextKey(name), decoded.value);
      ConsEqual(e, others.value, field, fields);
      if hook.Some? && HookField(c, hook.value, e).Ok? && HookFields(c, hook.value, others.value).Ok? {
        ConsEqual(HookField(c, hook.value, e).value, HookFields(c, hook.value, others.value).value, field, fields);
      }
    }
  }

  function HookedField(c: Codec, hook: Option<ArtifactHook>, name: string, decoded: Result<Value>): Result<Entry> {
    var v :- decoded;
    if hook.Some? then HookField(c, hook.value, Entry(TextKey(name), v)) else Ok(Entry(TextKey(name), v))
  }

  lemma {:induction false} FieldRoundTrip(c: Codec, field: Entry, fieldType: FieldType, hook: Option<ArtifactHook>)
    requires WellFormed(c) && FieldsHaveType(c, [field], [fieldType], hook)
    ensures Encode(c, field.value).Ok?
    ensures HookedField(c, hook, fieldType.name, Decode(c, Encode(c, field.value).value, fieldType.annotation))
            == Ok(field)
            <==> Clean(c, field.value)
    decreases field, Plain, 0
  {
    assert [field][0] == field && [fieldType][0] == fieldType;
    if IsArtifactField(hook, fieldType.name) {
      ArtifactRoundTrip(c, hook.value.enumName, field.value.entries);
    } else {
      RoundTrip(c, field.value, fieldType.annotation);
    }
  }

  predicate HasEnumKeys(c: Codec, enumName: string, entries: seq<Entry>) {
    forall e | e in entries ::
      e.key.EnumKey? && e.key.enumName == enumName && enumName in c.enums && e.key.member in c.enums[enumName]
  }

  /** A dictionary with enum keys gets them back from the hook. */
  lemma {:induction false} ArtifactRoundTrip(c: Codec, enumName: string, entries: seq<Entry>)
    requires WellFormed(c) && EntriesHaveType(c, entries) && HasEnumKeys(c, enumName, entries)
    ensures Encode(c, Dict(entries)).Ok?
    ensures var restored := Restore(c, Encode(c, Dict(entries)).value);
            (restored.Ok? && restored.value.Dict? && ArtifactKeys(c, enumName, restored.value.entries) == entries)
            <==> Clean(c, Dict(entries))
    decreases entries, Plain, 2
  {
    DictRoundTrip(c, entries);
    var raw := EncodeEntries(c, entries).value;
    RestoredDictionary(c, raw);
    TextualEntries(entries);
    EncodedEntries(c, entries);
    if !Reserved(c, raw) && RestoreFields(c, raw, []).Ok? {
      RestoredKeys(c, raw, []);
      HookInvertsText(c, enumName, entries, RestoreFields(c, raw, []).value);
    }
  }

  lemma {:induction false} HookInvertsText(c: Codec, enumName: string, entries: seq<Entry>, restored: seq<Entry>)
    requires HasEnumKeys(c, enumName, entries) && |restored| == |entries|
    requires forall i | 0 <= i < |entries| :: restored[i].key == TextKey(KeyText(entries[i].key))
    ensures ArtifactKeys(c, enumName, restored) == entries <==> restored == Textual(entries)
  {
    TextualEntries(entries);
    var hooked := ArtifactKeys(c, enumName, restored);
    forall i | 0 <= i < |entries| ensures hooked[i] == entries[i] <==> restored[i] == Textual(entries)[i] {
      assert entries[i] in entries;
    }
  }

  lemma {:induction false} TextualEntries(entries: seq<Entry>)
    ensures |Textual(entries)| == |entries|
    ensures forall i | 0 <= i < |entries| ::
              Textual(entries)[i] == Entry(TextKey(KeyText(entries[i].key)), entries[i].value)
  {
    if entries != [] {
      TextualEntries(entries[1..]);
    }
  }

  lemma {:induction false} EncodedEntries(c: Codec, entries: seq<Entry>)
    requires EncodeEntries(c, entries).Ok?
    ensures var fields := EncodeEntries(c, entries).value;
            |fields| == |entries| && forall i | 0 <= i < |entries| :: fields[i].key == KeyText(entries[i].key)
  {
    if entries != [] {
      EncodedEntries(c, entries[1..]);
    }
  }

  lemma {:induction false} ModelRoundTrip(c: Codec, name: string, fields: seq<Entry>)
    requires WellFormed(c) && HasType(c, Model(name, fields), Plain)
    ensures Encode(c, Model(name, fields)).Ok?
    ensures Restore(c, Encode(c, Model(name, fields)).value) == Ok(Model(name, fields)) <==> EntriesClean(c, fields)
    decreases fields, Plain, 1
  {
    var types := c.models[name];
    var hook := if IsHooked(c, name) then c.hook else None;
    HintsOfTypes(c, fields, types, hook);
    FieldsRoundTrip(c, fields, types, hook, types);
    DeclaredKeys(c, fields, types, hook);
    RestoredModel(c, name, EncodeEntries(c, fields).value, hook);
  }

  lemma {:induction false} HintsOfTypes(c: Codec, fields: seq<Entry>, types: seq<FieldType>, hook: Option<ArtifactHook>)
    requires FieldsHaveType(c, fields, types, hook)
    ensures forall i | 0 <= i < |types| :: Hint(types, types[i].name) == types[i].annotation
  {
    forall i | 0 <= i < |types| ensures Hint(types, types[i].name) == types[i].annotation {
      forall j | 0 <= j < i ensures types[j].name != types[i].name {
        DeclaredOnce(c, fields, types, hook, j, i);
      }
      HintOf(types, types[i].name, i);
    }
  }

  lemma {:induction false} RestoredModel(c: Codec, name: string, raw: seq<Field>, hook: Option<ArtifactHook>)
    requires c.typeKey != c.valueKey && name in c.models && hook == (if IsHooked(c, name) then c.hook else None)
    ensures Restore(c, JDict([Field(c.typeKey, JStr(name)), Field(c.valueKey, JDict(raw))]))
         == (var fields :- Hooked(c, hook, RestoreFields(c, raw, c.models[name])); Construct(c, name, fields))
  {
    TypeAndValue(c, JStr(name), JDict(raw));
  }

  lemma {:induction false} TypeAndValue(c: Codec, name: Json, raw: Json)
    requires c.typeKey != c.valueKey
    ensures Lookup([Field(c.typeKey, name), Field(c.valueKey, raw)], c.typeKey) == Some(name)
    ensures Lookup([Field(c.typeKey, name), Field(c.valueKey, raw)], c.valueKey) == Some(raw)
  {
    var written := [Field(c.typeKey, name), Field(c.valueKey, raw)];
    assert written[1..] == [Field(c.valueKey, raw)];
  }

  lemma {:induction false} DeclaredKeys(c: Codec, fields: seq<Entry>, types: seq<FieldType>, hook: Option<ArtifactHook>)
    requires FieldsHaveType(c, fields, types, hook)
    ensures |fields| == |types| && forall i | 0 <= i < |fields| :: fields[i].key == TextKey(types[i].name)
  {
    if fields != [] {
      DeclaredKeys(c, fields[1..], types[1..], hook);
    }
  }
}
