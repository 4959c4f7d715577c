/**
 * Capability descriptors as records of untyped metadata, and back. `Any` is a Go value of one of
 * the dynamic types that occur in such metadata; the protobuf JSON codecs of the nested messages
 * are parameters, known only to be inverses.
 */
module Convert {
  import opened Options

  datatype Result<+T> = Ok(value: T) | Error(reason: Reason) {
    predicate IsFailure() {
      Error?
    }
    function PropagateFailure<U>(): Result<U>
      requires Error?
    {
      Error(reason)
    }
    function Extract(): T
      requires Ok?
    {
      value
    }
  }

  datatype Reason = NilDescriptor | NotAList | NotAString | BadMessage | BadSchema | SchemasNotAList | BadMetadata

  /**
   * `Strings` is `[]string`, `Objects` is `[]map[string]any` with its nil maps, `NonFinite` a NaN or
   * an infinity, and the last four are the nil slices and the nil map; the others are what JSON
   * decodes to.
   */
  datatype Any =
    | Null
    | Bool(b: bool)
    | Num(n: real)
    | NonFinite(spelling: string)
    | Str(s: string)
    | List(items: seq<Any>)
    | Obj(o: Object)
    | Strings(texts: seq<string>)
    | Objects(objects: seq<Option<Object>>)
    | NilList
    | NilMap
    | NilStrings
    | NilObjects

  datatype Object = Object(fields: map<Key, Any>)

  /**
   * The keys the code spells out, each standing for its literal, the two other spellings that
   * protobuf JSON takes (`jsonSchema`, `adminForm`), and every other key.
   */
  datatype Key =
    | DISPLAY_NAME | DESCRIPTION | SUBSCRIPTIONS | AUTH_MODES | ICON_URL
    | WATCH_SYNC_PROVIDER | REQUEST_ROUTER | CONFIG_SCHEMA | METADATA
    | KEY | TITLE | JSON_SCHEMA | REQUIRED | ADMIN_FORM
    | JSON_SCHEMA_CAMEL | ADMIN_FORM_CAMEL
    | Other(name: string)

  // ----- JSON storage

  /** What is left of a value after JSON storage. */
  function Store(a: Any): Any
    decreases a
  {
    match a
    case List(items) => List(seq(|items|, i requires 0 <= i < |items| => Store(items[i])))
    case Obj(o) => Obj(StoreObject(o))
    case Strings(texts) => List(seq(|texts|, i requires 0 <= i < |texts| => Str(texts[i])))
    case Objects(objects) =>
      List(seq(|objects|, i requires 0 <= i < |objects| =>
        if objects[i].Some? then Obj(StoreObject(objects[i].value)) else Null))
    case NilList => Null
    case NilMap => Null
    case NilStrings => Null
    case NilObjects => Null
    case _ => a
  }

  function StoreObject(o: Object): Object
    decreases o
  {
    Object(map k | k in o.fields :: Store(o.fields[k]))
  }

  /** Only types that JSON itself produces, at every depth. */
  predicate Plain(a: Any)
    decreases a
  {
    match a
    case List(items) => forall i :: 0 <= i < |items| ==> Plain(items[i])
    case Obj(o) => PlainObject(o)
    case Strings(_) => false
    case Objects(_) => false
    case _ => !IsNil(a)
  }

  /** A nil slice or map, which storage turns into null. */
  predicate IsNil(a: Any) {
    a.NilList? || a.NilMap? || a.NilStrings? || a.NilObjects?
  }

  predicate PlainObject(o: Object)
    decreases o
  {
    forall k <- o.fields :: Plain(o.fields[k])
  }

  /** What JSON can write: no NaN and no infinity, at any depth. */
  predicate Finite(a: Any)
    decreases a
  {
    match a
    case NonFinite(_) => false
    case List(items) => forall i :: 0 <= i < |items| ==> Finite(items[i])
    case Obj(o) => FiniteObject(o)
    case Objects(objects) => forall i :: 0 <= i < |objects| && objects[i].Some? ==> FiniteObject(objects[i].value)
    case _ => true
  }

  predicate FiniteObject(o: Object)
    decreases o
  {
    forall k <- o.fields :: Finite(o.fields[k])
  }

  /** `Struct.AsMap`: a number JSON cannot write becomes its name. */
  function Spelled(a: Any): Any
    decreases a
  {
    match a
    case NonFinite(spelling) => Str(spelling)
    case List(items) => List(seq(|items|, i requires 0 <= i < |items| => Spelled(items[i])))
    case Obj(o) => Obj(AsMap(o))
    case _ => a
  }

  function AsMap(o: Object): Object
    decreases o
  {
    Object(map k | k in o.fields :: Spelled(o.fields[k]))
  }

  lemma {:induction false} SpelledIsJson(a: Any)
    requires Plain(a)
    ensures Plain(Spelled(a)) && Finite(Spelled(a))
    ensures Spelled(a) == a <==> Finite(a)
    decreases a
  {
    match a
    case List(items) =>
      forall i | 0 <= i < |items| { SpelledIsJson(items[i]); }
      assert forall i :: 0 <= i < |items| ==> Spelled(a).items[i] == Spelled(items[i]);
      if Finite(a) { assert Spelled(a).items == items; }
    case Obj(o) => AsMapIsJson(o);
    case _ =>
  }

  lemma {:induction false} AsMapIsJson(o: Object)
    requires PlainObject(o)
    ensures PlainObject(AsMap(o)) && FiniteObject(AsMap(o))
    ensures AsMap(o) == o <==> FiniteObject(o)
    decreases o
  {
    forall k | k in o.fields { SpelledIsJson(o.fields[k]); }
    if FiniteObject(o) {
      assert AsMap(o).fields == o.fields;
    } else {
      var k :| k in o.fields && !Finite(o.fields[k]);
      assert AsMap(o).fields[k] == Spelled(o.fields[k]);
    }
  }

  lemma {:induction false} StoreKeepsFinite(a: Any)
    ensures Finite(Store(a)) <==> Finite(a)
    decreases a
  {
    match a
    case List(items) =>
      forall i | 0 <= i < |items| { StoreKeepsFinite(items[i]); }
      assert forall i :: 0 <= i < |items| ==> Store(a).items[i] == Store(items[i]);
    case Obj(o) => StoreObjectKeepsFinite(o);
    case Objects(objects) =>
      forall i | 0 <= i < |objects| && objects[i].Some? { StoreObjectKeepsFinite(objects[i].value); }
      assert forall i :: 0 <= i < |objects| ==>
        Store(a).items[i] == if objects[i].Some? then Obj(StoreObject(objects[i].value)) else Null;
    case _ =>
  }

  lemma {:induction false} StoreObjectKeepsFinite(o: Object)
    ensures FiniteObject(StoreObject(o)) <==> FiniteObject(o)
    decreases o
  {
    forall k | k in o.fields { StoreKeepsFinite(o.fields[k]); }
    assert forall k <- o.fields :: StoreObject(o).fields[k] == Store(o.fields[k]);
  }

  lemma {:induction false} StoreIsPlain(a: Any)
    ensures Plain(Store(a))
    decreases a
  {
    match a
    case List(items) =>
      forall i | 0 <= i < |items| { StoreIsPlain(items[i]); }
    case Obj(o) => StoredObjectIsPlain(o);
    case Objects(objects) =>
      forall i | 0 <= i < |objects| && objects[i].Some? { StoredObjectIsPlain(objects[i].value); }
    case _ =>
  }

  lemma {:induction false} StoredObjectIsPlain(o: Object)
    ensures PlainObject(StoreObject(o))
    decreases o
  {
    forall k | k in o.fields { StoreIsPlain(o.fields[k]); }
  }

  lemma {:induction false} PlainIsStored(a: Any)
    requires Plain(a)
    ensures Store(a) == a
    decreases a
  {
    match a
    case List(items) =>
      forall i | 0 <= i < |items| { PlainIsStored(items[i]); }
    case Obj(o) => PlainObjectIsStored(o);
    case _ =>
  }

  lemma {:induction false} PlainObjectIsStored(o: Object)
    requires PlainObject(o)
    ensures StoreObject(o) == o
    decreases o
  {
    forall k | k in o.fields { PlainIsStored(o.fields[k]); }
  }

  /** Storing twice is storing once. */
  lemma StoreTwice(a: Any)
    ensures Store(Store(a)) == Store(a)
  {
    StoreIsPlain(a);
    PlainIsStored(Store(a));
  }

  // ----- Structs

  /** What `structpb.NewValue` takes: JSON types, any number, and nil lists and maps of these. */
  predicate Accepted(a: Any)
    decreases a
  {
    match a
    case List(items) => forall i :: 0 <= i < |items| ==> Accepted(items[i])
    case Obj(o) => AcceptedObject(o)
    case Strings(_) => false
    case Objects(_) => false
    case NilStrings => false
    case NilObjects => false
    case _ => true
  }

  predicate AcceptedObject(o: Object)
    decreases o
  {
    forall k <- o.fields :: Accepted(o.fields[k])
  }

  /** A nil list or map becomes an empty one. */
  function NewValue(a: Any): Any
    decreases a
  {
    match a
    case List(items) => List(seq(|items|, i requires 0 <= i < |items| => NewValue(items[i])))
    case Obj(o) => Obj(NewStruct(o))
    case NilList => List([])
    case NilMap => Obj(Object(map[]))
    case _ => a
  }

  function NewStruct(o: Object): Object
    decreases o
  {
    Object(map k | k in o.fields :: NewValue(o.fields[k]))
  }

  /** A Struct takes plain values over as they are; what else it accepts, storage would change. */
  lemma {:induction false} StructOfValue(a: Any)
    ensures Plain(a) ==> Accepted(a) && NewValue(a) == a
    ensures Accepted(a) && !Plain(a) ==> NewValue(a) != Store(a)
    decreases a
  {
    match a
    case List(items) =>
      forall i | 0 <= i < |items| { StructOfValue(items[i]); }
      assert forall i :: 0 <= i < |items| ==> NewValue(a).items[i] == NewValue(items[i]);
      assert forall i :: 0 <= i < |items| ==> Store(a).items[i] == Store(items[i]);
      if Plain(a) { assert NewValue(a).items == items; }
    case Obj(o) => StructOfObject(o);
    case _ =>
  }

  lemma {:induction false} StructOfObject(o: Object)
    ensures PlainObject(o) ==> AcceptedObject(o) && NewStruct(o) == o
    ensures AcceptedObject(o) && !PlainObject(o) ==> NewStruct(o) != StoreObject(o)
    decreases o
  {
    forall k | k in o.fields { StructOfValue(o.fields[k]); }
    if PlainObject(o) {
      assert NewStruct(o).fields == o.fields;
    } else if AcceptedObject(o) {
      var k :| k in o.fields && !Plain(o.fields[k]);
      assert NewStruct(o).fields[k] == NewValue(o.fields[k]) != Store(o.fields[k]) == StoreObject(o).fields[k];
    }
  }

  // ----- Messages and descriptors

  /** The JSON form of a message; decoding fails on anything the message type does not fit. */
  datatype Codec<!M> = Codec(encode: M -> Object, decode: Any -> Option<M>)

  /** Encoding yields JSON, and decoding undoes it. */
  ghost predicate Inverse<M(!new)>(c: Codec<M>) {
    forall m: M :: PlainObject(c.encode(m)) && FiniteObject(c.encode(m)) && c.decode(Obj(c.encode(m))) == Some(m)
  }

  /** The codecs of WatchSyncProviderDescriptor, RequestRouterDescriptor and AdminFormDescriptor. */
  datatype Codecs<!W, !R, !F> = Codecs(watchSync: Codec<W>, router: Codec<R>, form: Codec<F>)

  ghost predicate Inverses<W(!new), R(!new), F(!new)>(c: Codecs<W, R, F>) {
    Inverse(c.watchSync) && Inverse(c.router) && Inverse(c.form)
  }

  datatype ConfigSchema<F> = ConfigSchema(
    key: string, title: string, description: string, jsonSchema: string, required: bool, adminForm: Option<F>)

  datatype NetworkAccess = NetworkAccess(provider: string, displayName: string)

  datatype Descriptor<W, R, F> = Descriptor(
    typ: string, id: string, displayName: string, description: string,
    subscriptions: seq<string>, authModes: seq<string>, iconUrl: string,
    watchSync: Option<W>, networkAccess: Option<NetworkAccess>, router: Option<R>,
    configSchema: seq<Option<ConfigSchema<F>>>, metadata: Option<Object>)

  datatype Record = Record(typ: string, id: string, metadata: Option<map<Key, Any>>)

  // ----- Config schemas

  const SCHEMA_KEYS := {KEY, TITLE, DESCRIPTION, JSON_SCHEMA, REQUIRED, ADMIN_FORM}

  predicate IsDefault<F>(s: ConfigSchema<F>, key: Key) {
    match key
    case KEY => s.key == ""
    case TITLE => s.title == ""
    case DESCRIPTION => s.description == ""
    case JSON_SCHEMA => s.jsonSchema == ""
    case REQUIRED => !s.required
    case ADMIN_FORM => s.adminForm.None?
    case _ => true
  }

  function FieldJson<F>(c: Codec<F>, s: ConfigSchema<F>, key: Key): Any
    requires !IsDefault(s, key)
  {
    match key
    case KEY => Str(s.key)
    case TITLE => Str(s.title)
    case DESCRIPTION => Str(s.description)
    case JSON_SCHEMA => Str(s.jsonSchema)
    case REQUIRED => Bool(true)
    case ADMIN_FORM => Obj(c.encode(s.adminForm.value))
  }

  /** protojson leaves default-valued fields out. */
  function SchemaJson<F>(c: Codec<F>, s: ConfigSchema<F>): map<Key, Any> {
    map key | key in SCHEMA_KEYS && !IsDefault(s, key) :: FieldJson(c, s, key)
  }

  /** The names under which a field is found; null when it is absent. */
  function FieldAt(o: Object, key: Key): Any {
    if key in o.fields then o.fields[key] else Null
  }

  /** A field with two spellings, of which only one may occur. */
  function FieldNamed(o: Object, key: Key, camel: Key): Result<Any> {
    if key in o.fields && camel in o.fields then Error(BadSchema)
    else if key in o.fields then Ok(o.fields[key])
    else Ok(FieldAt(o, camel))
  }

  /** A string field of a message: null means empty. */
  function TextValue(a: Any): Result<string> {
    match a
    case Null => Ok("")
    case Str(s) => Ok(s)
    case _ => Error(BadSchema)
  }

  function BoolValue(a: Any): Result<bool> {
    match a
    case Null => Ok(false)
    case Bool(b) => Ok(b)
    case _ => Error(BadSchema)
  }

  function FormValue<F>(c: Codec<F>, a: Any): Result<Option<F>> {
    if a.Null? then Ok(None)
    else
      var form := c.decode(a);
      if form.None? then Error(BadSchema) else Ok(form)
  }

  /** Decoding goes through JSON, so it sees the stored form of the object; a nil map is no message. */
  function DecodeSchema<F>(c: Codec<F>, raw: Option<Object>): Result<ConfigSchema<F>> {
    if raw.None? || !FiniteObject(raw.value) then Error(BadSchema) else DecodeJson(c, StoreObject(raw.value))
  }

  const SCHEMA_NAMES := SCHEMA_KEYS + {JSON_SCHEMA_CAMEL, ADMIN_FORM_CAMEL}

  function DecodeJson<F>(c: Codec<F>, o: Object): Result<ConfigSchema<F>> {
    var key :- TextValue(FieldAt(o, KEY));
    var title :- TextValue(FieldAt(o, TITLE));
    var description :- TextValue(FieldAt(o, DESCRIPTION));
    var jsonSchemaField :- FieldNamed(o, JSON_SCHEMA, JSON_SCHEMA_CAMEL);
    var jsonSchema :- TextValue(jsonSchemaField);
    var required :- BoolValue(FieldAt(o, REQUIRED));
    var formField :- FieldNamed(o, ADMIN_FORM, ADMIN_FORM_CAMEL);
    var form :- FormValue(c, formField);
    Ok(ConfigSchema(key, title, description, jsonSchema, required, form))
  }

  predicate EntryHas<F>(s: ConfigSchema<F>, key: Key) {
    key in SCHEMA_KEYS && (key == ADMIN_FORM ==> s.adminForm.Some?)
  }

  function EntryField<F>(c: Codec<F>, s: ConfigSchema<F>, key: Key): Any
    requires EntryHas(s, key)
  {
    match key
    case KEY => Str(s.key)
    case TITLE => Str(s.title)
    case DESCRIPTION => Str(s.description)
    case JSON_SCHEMA => Str(s.jsonSchema)
    case REQUIRED => Bool(s.required)
    case ADMIN_FORM => Obj(c.encode(s.adminForm.value))
  }

  /** A schema entry as the record carries it: the scalar fields always, the form when there is one. */
  function SchemaEntry<F>(c: Codec<F>, s: Option<ConfigSchema<F>>): Object {
    match s
    case None => Object(map[])
    case Some(s) => Object(map key | key in SCHEMA_KEYS && EntryHas(s, key) :: EntryField(c, s, key))
  }

  function EmptySchema<F>(): ConfigSchema<F> {
    ConfigSchema("", "", "", "", false, None)
  }

  /** The scalar keys set, in the code's order, over the message's JSON. */
  function Restore<F>(json: map<Key, Any>, s: ConfigSchema<F>): map<Key, Any> {
    json[KEY := Str(s.key)][TITLE := Str(s.title)][DESCRIPTION := Str(s.description)]
      [JSON_SCHEMA := Str(s.jsonSchema)][REQUIRED := Bool(s.required)]
  }

  lemma RestoredAt<F>(c: Codec<F>, s: ConfigSchema<F>, key: Key)
    ensures var value := Restore(SchemaJson(c, s), s);
            (key in value <==> EntryHas(s, key)) && (key in value ==> value[key] == EntryField(c, s, key))
  {}

  /** Restoring the keys that the message's JSON leaves out gives the entry. */
  lemma RestoredKeys<F>(c: Codec<F>, s: ConfigSchema<F>)
    ensures Restore(SchemaJson(c, s), s) == SchemaEntry(c, Some(s)).fields
  {
    forall key { RestoredAt(c, s, key); }
    hide Restore, EntryHas, EntryField;
    assert forall key :: EntryHas(s, key) ==> key in SCHEMA_KEYS by { OnlySchemaKeys(s); }
  }

  lemma OnlySchemaKeys<F>(s: ConfigSchema<F>)
    ensures forall key :: EntryHas(s, key) ==> key in SCHEMA_KEYS
  {}

  predicate IsJson(a: Any) {
    a.Str? || a.Bool? || (a.Obj? && PlainObject(a.o) && FiniteObject(a.o))
  }

  lemma AllJson(o: Object)
    requires forall k <- o.fields :: IsJson(o.fields[k])
    ensures PlainObject(o) && FiniteObject(o)
  {}

  lemma EntryIsJson<F(!new)>(c: Codec<F>, s: Option<ConfigSchema<F>>)
    requires Inverse(c)
    ensures PlainObject(SchemaEntry(c, s)) && FiniteObject(SchemaEntry(c, s))
  {
    hide PlainObject, FiniteObject;
    AllJson(SchemaEntry(c, s));
  }

  /** Every entry comes back as it was, a missing one as the empty schema. */
  lemma SchemaRoundTrip<F(!new)>(c: Codec<F>, s: Option<ConfigSchema<F>>)
    requires Inverse(c)
    ensures DecodeSchema(c, Some(SchemaEntry(c, s))) == Ok(if s.Some? then s.value else EmptySchema())
  {
    hide SchemaJson, PlainObject, FiniteObject, StoreObject;
    EntryIsJson(c, s);
    PlainObjectIsStored(SchemaEntry(c, s));
    if s.Some? {
      DecodeFields(c, s.value, SchemaEntry(c, s));
    }
  }

  lemma DecodeFields<F(!new)>(c: Codec<F>, s: ConfigSchema<F>, o: Object)
    requires Inverse(c) && o == SchemaEntry(c, Some(s))
    ensures DecodeJson(c, o) == Ok(s)
  {
    assert FieldNamed(o, JSON_SCHEMA, JSON_SCHEMA_CAMEL) == Ok(Str(s.jsonSchema));
    assert FieldNamed(o, ADMIN_FORM, ADMIN_FORM_CAMEL) ==
           Ok(if s.adminForm.Some? then Obj(c.encode(s.adminForm.value)) else Null);
    assert FormValue(c, FieldNamed(o, ADMIN_FORM, ADMIN_FORM_CAMEL).value) == Ok(s.adminForm);
  }

  // ----- Decoding

  function Texts(a: Any): Result<seq<string>> {
    match a
    case Strings(texts) => Ok(texts)
    case NilStrings => Ok([])
    case NilList => Ok([])
    case List(items) =>
      if forall i :: 0 <= i < |items| ==> items[i].Str?
      then Ok(TextsOf(items))
      else Error(NotAString)
    case _ => Error(NotAList)
  }

  function TextsOf(items: seq<Any>): (texts: seq<string>)
    requires forall i :: 0 <= i < |items| ==> items[i].Str?
    ensures |texts| == |items| && forall i :: 0 <= i < |items| ==> texts[i] == items[i].s
  {
    seq(|items|, i requires 0 <= i < |items| => items[i].s)
  }

  function TextsAt(m: map<Key, Any>, key: Key): Result<seq<string>> {
    if key in m then Texts(m[key]) else Ok([])
  }

  function TextAt(m: map<Key, Any>, key: Key): string {
    if key in m && m[key].Str? then m[key].s else ""
  }

  function MessageAt<M>(c: Codec<M>, m: map<Key, Any>, key: Key): Result<Option<M>> {
    if key !in m then Ok(None)
    else if !Finite(m[key]) then Error(BadMessage)
    else
      var message := c.decode(Store(m[key]));
      if message.None? then Error(BadMessage) else Ok(message)
  }

  /** `toStringAnyMap`: anything but a map counts as an empty one; a nil map stays nil. */
  function AsObject(a: Any): Option<Object> {
    match a
    case Obj(o) => Some(o)
    case NilMap => None
    case _ => Some(Object(map[]))
  }

  function AsObjects(items: seq<Any>): (os: seq<Option<Object>>)
    ensures |os| == |items| && forall i :: 0 <= i < |items| ==> os[i] == AsObject(items[i])
  {
    seq(|items|, i requires 0 <= i < |items| => AsObject(items[i]))
  }

  function SchemaObjects(a: Any): (r: Result<seq<Option<Object>>>)
    ensures r.Error? ==> r.reason == SchemasNotAList
  {
    match a
    case List(items) => Ok(AsObjects(items))
    case Objects(objects) => Ok(objects)
    case NilList => Ok([])
    case NilObjects => Ok([])
    case _ => Error(SchemasNotAList)
  }

  function DecodeEach<F>(c: Codec<F>, os: seq<Option<Object>>): Result<seq<Option<ConfigSchema<F>>>> {
    if forall i :: 0 <= i < |os| ==> DecodeSchema(c, os[i]).Ok? then Ok(SchemasOf(c, os)) else Error(BadSchema)
  }

  function SchemasOf<F>(c: Codec<F>, os: seq<Option<Object>>): (ss: seq<Option<ConfigSchema<F>>>)
    requires forall i :: 0 <= i < |os| ==> DecodeSchema(c, os[i]).Ok?
    ensures |ss| == |os| && forall i :: 0 <= i < |os| ==> ss[i] == Some(DecodeSchema(c, os[i]).value)
  {
    seq(|os|, i requires 0 <= i < |os| => Some(DecodeSchema(c, os[i]).value))
  }

  function SchemasAt<F>(c: Codec<F>, m: map<Key, Any>): Result<seq<Option<ConfigSchema<F>>>> {
    if CONFIG_SCHEMA in m then SchemasIn(c, m[CONFIG_SCHEMA]) else Ok([])
  }

  function SchemasIn<F>(c: Codec<F>, value: Any): Result<seq<Option<ConfigSchema<F>>>> {
    var os :- SchemaObjects(value);
    DecodeEach(c, os)
  }

  /** `structpb.NewStruct` of the map under the key; a nil map gives an empty Struct. */
  function StructAt(m: map<Key, Any>): Result<Option<Object>> {
    if METADATA !in m then Ok(None)
    else match AsObject(m[METADATA])
      case None => Ok(Some(Object(map[])))
      case Some(o) => if AcceptedObject(o) then Ok(Some(NewStruct(o))) else Error(BadMetadata)
  }

  function Decode<W, R, F>(c: Codecs<W, R, F>, r: Record): Result<Descriptor<W, R, F>> {
    var empty := Descriptor(r.typ, r.id, "", "", [], [], "", None, None, None, [], None);
    if r.metadata.None? then Ok(empty)
    else
      var m := r.metadata.value;
      var d :- DecodeTexts(m, empty);
      DecodeMessages(c, m, d)
  }

  function DecodeTexts<W, R, F>(m: map<Key, Any>, d: Descriptor<W, R, F>): Result<Descriptor<W, R, F>> {
    var subscriptions :- TextsAt(m, SUBSCRIPTIONS);
    var authModes :- TextsAt(m, AUTH_MODES);
    Ok(d.(displayName := TextAt(m, DISPLAY_NAME), description := TextAt(m, DESCRIPTION),
          subscriptions := subscriptions, authModes := authModes, iconUrl := TextAt(m, ICON_URL)))
  }

  function DecodeMessages<W, R, F>(c: Codecs<W, R, F>, m: map<Key, Any>, d: Descriptor<W, R, F>)
      : Result<Descriptor<W, R, F>>
  {
    var watchSync :- MessageAt(c.watchSync, m, WATCH_SYNC_PROVIDER);
    var router :- MessageAt(c.router, m, REQUEST_ROUTER);
    var schemas :- SchemasAt(c.form, m);
    var metadata :- StructAt(m);
    Ok(d.(watchSync := watchSync, router := router, configSchema := schemas, metadata := metadata))
  }

  // ----- Encoding

  /** Which keys the record of a descriptor has, and what they hold. */
  predicate Carries<W, R, F>(d: Descriptor<W, R, F>, key: Key) {
    match key
    case DISPLAY_NAME => true
    case DESCRIPTION => true
    case SUBSCRIPTIONS => d.subscriptions != []
    case AUTH_MODES => d.authModes != []
    case ICON_URL => d.iconUrl != ""
    case WATCH_SYNC_PROVIDER => d.watchSync.Some?
    case REQUEST_ROUTER => d.router.Some?
    case CONFIG_SCHEMA => d.configSchema != []
    case METADATA => d.metadata.Some?
    case _ => false
  }

  function Carried<W, R, F>(c: Codecs<W, R, F>, d: Descriptor<W, R, F>, key: Key): Any
    requires Carries(d, key)
  {
    match key
    case DISPLAY_NAME => Str(d.displayName)
    case DESCRIPTION => Str(d.description)
    case SUBSCRIPTIONS => Strings(d.subscriptions)
    case AUTH_MODES => Strings(d.authModes)
    case ICON_URL => Str(d.iconUrl)
    case WATCH_SYNC_PROVIDER => Obj(c.watchSync.encode(d.watchSync.value))
    case REQUEST_ROUTER => Obj(c.router.encode(d.router.value))
    case CONFIG_SCHEMA => Objects(Entries(c.form, d.configSchema))
    case METADATA => Obj(AsMap(d.metadata.value))
  }

  const KNOWN_KEYS := {
    DISPLAY_NAME, DESCRIPTION, SUBSCRIPTIONS, AUTH_MODES, ICON_URL,
    WATCH_SYNC_PROVIDER, REQUEST_ROUTER, CONFIG_SCHEMA, METADATA}

  /** The metadata a record carries for a descriptor. */
  function Encode<W, R, F>(c: Codecs<W, R, F>, d: Descriptor<W, R, F>): map<Key, Any> {
    Part(c, d, KNOWN_KEYS)
  }

  /** The part of it that some of the keys make up. */
  function Part<W, R, F>(c: Codecs<W, R, F>, d: Descriptor<W, R, F>, keys: set<Key>): map<Key, Any> {
    map key | key in keys && Carries(d, key) :: Carried(c, d, key)
  }

  lemma OneMoreKey<W, R, F>(c: Codecs<W, R, F>, d: Descriptor<W, R, F>, keys: set<Key>, key: Key)
    ensures Part(c, d, keys + {key}) ==
            if Carries(d, key) then Part(c, d, keys)[key := Carried(c, d, key)] else Part(c, d, keys)
  {
    hide Carries, Carried;
  }

  function Entries<F>(c: Codec<F>, ss: seq<Option<ConfigSchema<F>>>): (os: seq<Option<Object>>)
    ensures |os| == |ss| && forall i :: 0 <= i < |ss| ==> os[i] == Some(SchemaEntry(c, ss[i]))
  {
    seq(|ss|, i requires 0 <= i < |ss| => Some(SchemaEntry(c, ss[i])))
  }

  function RecordOf<W, R, F>(c: Codecs<W, R, F>, d: Descriptor<W, R, F>): Record {
    Record(d.typ, d.id, Some(Encode(c, d)))
  }

  /** A Struct holds JSON types and any number. */
  predicate WellFormed<W, R, F>(d: Descriptor<W, R, F>) {
    d.metadata.Some? ==> PlainObject(d.metadata.value)
  }

  /**
   * What a record cannot carry: the network-access descriptor, the difference between a nil and an
   * empty schema, and the difference between a non-finite number and its name.
   */
  function Normal<W, R, F>(d: Descriptor<W, R, F>): Descriptor<W, R, F> {
    d.(networkAccess := None,
       configSchema := Filled(d.configSchema),
       metadata := if d.metadata.Some? then Some(AsMap(d.metadata.value)) else None)
  }

  function Filled<F>(ss: seq<Option<ConfigSchema<F>>>): (fs: seq<Option<ConfigSchema<F>>>)
    ensures |fs| == |ss|
    ensures forall i :: 0 <= i < |ss| ==> fs[i] == if ss[i].Some? then ss[i] else Some(EmptySchema())
  {
    seq(|ss|, i requires 0 <= i < |ss| => if ss[i].Some? then ss[i] else Some(EmptySchema()))
  }

  lemma MessageRoundTrip<M(!new)>(c: Codec<M>, m: map<Key, Any>, key: Key, message: Option<M>)
    requires Inverse(c)
    requires (key in m <==> message.Some?) && (key in m ==> m[key] == Obj(c.encode(message.value)))
    ensures MessageAt(c, m, key) == Ok(message)
  {
    if message.Some? {
      PlainIsStored(Obj(c.encode(message.value)));
    }
  }

  lemma SchemasRoundTrip<F(!new)>(c: Codec<F>, m: map<Key, Any>, ss: seq<Option<ConfigSchema<F>>>)
    requires Inverse(c)
    requires (CONFIG_SCHEMA in m <==> ss != [])
    requires CONFIG_SCHEMA in m ==> m[CONFIG_SCHEMA] == Objects(Entries(c, ss))
    ensures SchemasAt(c, m) == Ok(Filled(ss))
  {
    hide SchemaEntry, DecodeSchema;
    forall i | 0 <= i < |ss|
      ensures DecodeSchema(c, Some(SchemaEntry(c, ss[i]))) == Ok(if ss[i].Some? then ss[i].value else EmptySchema())
    {
      SchemaRoundTrip(c, ss[i]);
    }
    if ss != [] {
      assert SchemasOf(c, Entries(c, ss)) == Filled(ss);
    } else {
      assert Filled(ss) == [];
    }
  }

  lemma TextsRoundTrip<W, R, F>(c: Codecs<W, R, F>, d: Descriptor<W, R, F>)
    ensures var empty := Descriptor(d.typ, d.id, "", "", [], [], "", None, None, None, [], None);
            DecodeTexts(Encode(c, d), empty) ==
            Ok(d.(watchSync := None, networkAccess := None, router := None, configSchema := [], metadata := None))
  {}

  lemma MessagesRoundTrip<W(!new), R(!new), F(!new)>(c: Codecs<W, R, F>, d: Descriptor<W, R, F>)
    requires Inverses(c) && WellFormed(d)
    ensures var e := d.(watchSync := None, networkAccess := None, router := None, configSchema := [], metadata := None);
            DecodeMessages(c, Encode(c, d), e) == Ok(Normal(d))
  {
    hide MessageAt, SchemasAt, DecodeSchema, SchemaEntry, AsMap, PlainObject, FiniteObject, AcceptedObject, NewStruct;
    var m := Encode(c, d);
    MessageRoundTrip(c.watchSync, m, WATCH_SYNC_PROVIDER, d.watchSync);
    MessageRoundTrip(c.router, m, REQUEST_ROUTER, d.router);
    SchemasRoundTrip(c.form, m, d.configSchema);
    if d.metadata.Some? {
      AsMapIsJson(d.metadata.value);
      StructOfObject(AsMap(d.metadata.value));
    }
  }

  /** Decoding an encoded descriptor gives it back, up to the things a record cannot carry. */
  lemma RoundTrip<W(!new), R(!new), F(!new)>(c: Codecs<W, R, F>, d: Descriptor<W, R, F>)
    requires Inverses(c) && WellFormed(d)
    ensures Decode(c, RecordOf(c, d)) == Ok(Normal(d))
  {
    hide Encode, DecodeTexts, DecodeMessages, Normal;
    TextsRoundTrip(c, d);
    MessagesRoundTrip(c, d);
  }

  /** The descriptors that come back unchanged are those without such things. */
  lemma UnchangedExactly<W(!new), R(!new), F(!new)>(c: Codecs<W, R, F>, d: Descriptor<W, R, F>)
    requires Inverses(c) && WellFormed(d)
    ensures Decode(c, RecordOf(c, d)) == Ok(d) <==>
            && d.networkAccess.None?
            && (d.metadata.Some? ==> FiniteObject(d.metadata.value))
            && forall i :: 0 <= i < |d.configSchema| ==> d.configSchema[i].Some?
  {
    hide Decode, RecordOf;
    RoundTrip(c, d);
    if d.networkAccess.None? && forall i :: 0 <= i < |d.configSchema| ==> d.configSchema[i].Some? {
      assert Filled(d.configSchema) == d.configSchema;
    }
    if d.metadata.Some? {
      AsMapIsJson(d.metadata.value);
    }
    assert Normal(d).networkAccess.None? && Normal(d).configSchema == Filled(d.configSchema);
  }

  // ----- What a record holds, key by key

  /** The keys of a record, their presence and their values, in the shapes of a fresh one. */
  lemma EncodedRecord<W, R, F>(c: Codecs<W, R, F>, d: Descriptor<W, R, F>)
    ensures var m := Encode(c, d);
            && m.Keys <= {DISPLAY_NAME, DESCRIPTION, SUBSCRIPTIONS, AUTH_MODES, ICON_URL, WATCH_SYNC_PROVIDER,
                          REQUEST_ROUTER, CONFIG_SCHEMA, METADATA}
            && DISPLAY_NAME in m && m[DISPLAY_NAME] == Str(d.displayName)
            && DESCRIPTION in m && m[DESCRIPTION] == Str(d.description)
            && (SUBSCRIPTIONS in m <==> d.subscriptions != [])
            && (SUBSCRIPTIONS in m ==> m[SUBSCRIPTIONS] == Strings(d.subscriptions))
            && (AUTH_MODES in m <==> d.authModes != []) && (AUTH_MODES in m ==> m[AUTH_MODES] == Strings(d.authModes))
            && (ICON_URL in m <==> d.iconUrl != "") && (ICON_URL in m ==> m[ICON_URL] == Str(d.iconUrl))
            && (WATCH_SYNC_PROVIDER in m <==> d.watchSync.Some?)
            && (WATCH_SYNC_PROVIDER in m ==> m[WATCH_SYNC_PROVIDER] == Obj(c.watchSync.encode(d.watchSync.value)))
            && (REQUEST_ROUTER in m <==> d.router.Some?)
            && (REQUEST_ROUTER in m ==> m[REQUEST_ROUTER] == Obj(c.router.encode(d.router.value)))
            && (CONFIG_SCHEMA in m <==> d.configSchema != [])
            && (CONFIG_SCHEMA in m ==>
                 m[CONFIG_SCHEMA].Objects? && |m[CONFIG_SCHEMA].objects| == |d.configSchema|)
            && (METADATA in m <==> d.metadata.Some?) && (METADATA in m ==> m[METADATA] == Obj(AsMap(d.metadata.value)))
  {
    hide SchemaEntry, AsMap;
  }

  /** An entry has all five scalar keys, default values included, and the form if any; a nil schema's is empty. */
  lemma EntryKeys<F>(c: Codec<F>, s: Option<ConfigSchema<F>>)
    ensures var o := SchemaEntry(c, s).fields;
            match s
            case None => o == map[]
            case Some(s) =>
              && o.Keys == {KEY, TITLE, DESCRIPTION, JSON_SCHEMA, REQUIRED}
                           + (if s.adminForm.Some? then {ADMIN_FORM} else {})
              && o[KEY] == Str(s.key) && o[TITLE] == Str(s.title) && o[DESCRIPTION] == Str(s.description)
              && o[JSON_SCHEMA] == Str(s.jsonSchema) && o[REQUIRED] == Bool(s.required)
              && (s.adminForm.Some? ==> o[ADMIN_FORM] == Obj(c.encode(s.adminForm.value)))
  {}

  lemma AbsentKeysDecodeToDefaults<W, R, F>(c: Codecs<W, R, F>, typ: string, id: string, m: map<Key, Any>)
    ensures var r := Decode(c, Record(typ, id, Some(m)));
            r.Ok? ==>
              && (SUBSCRIPTIONS !in m ==> r.value.subscriptions == [])
              && (AUTH_MODES !in m ==> r.value.authModes == [])
              && (ICON_URL !in m ==> r.value.iconUrl == "")
              && (WATCH_SYNC_PROVIDER !in m ==> r.value.watchSync == None)
              && (REQUEST_ROUTER !in m ==> r.value.router == None)
              && (CONFIG_SCHEMA !in m ==> r.value.configSchema == [])
              && (METADATA !in m ==> r.value.metadata == None)
  {
    hide Texts, SchemasIn, AcceptedObject, NewStruct, Store, Finite;
  }

  /** No key but the name and the description can be missed: without it another descriptor comes back, if any. */
  lemma EveryKeyIsNeeded<W(!new), R(!new), F(!new)>(c: Codecs<W, R, F>, d: Descriptor<W, R, F>, key: Key)
    requires key in Encode(c, d) && key != DISPLAY_NAME && key != DESCRIPTION
    ensures Decode(c, Record(d.typ, d.id, Some(Encode(c, d) - {key}))) != Ok(Normal(d))
  {
    hide Decode, Encode, AsMap;
    var m := Encode(c, d) - {key};
    EncodedRecord(c, d);
    AbsentKeysDecodeToDefaults(c, d.typ, d.id, m);
    assert key !in m;
    assert |Normal(d).configSchema| == |d.configSchema|;
  }

  // ----- What decoding accepts, and what it makes of it

  /** A list of strings in one of its shapes, nil ones included. */
  predicate IsTextList(a: Any) {
    a.Strings? || a.NilStrings? || a.NilList? || (a.List? && forall item <- a.items :: item.Str?)
  }

  /** The list holds just these strings. */
  predicate TextListOf(a: Any, texts: seq<string>) {
    match a
    case Strings(ts) => texts == ts
    case List(items) => |texts| == |items| && forall i :: 0 <= i < |items| ==> items[i] == Str(texts[i])
    case _ => texts == []
  }

  lemma TextsExactly(a: Any)
    ensures Texts(a).Ok? <==> IsTextList(a)
    ensures Texts(a).Ok? ==> TextListOf(a, Texts(a).value)
    ensures Texts(a).Error? ==> Texts(a).reason == if a.List? then NotAString else NotAList
  {
    if a.List? {
      assert forall i :: 0 <= i < |a.items| ==> a.items[i] in a.items;
    }
  }

  /** A list of schemas: of the right shape, and without an entry that is a nil map or does not decode. */
  predicate IsSchemaList<F>(c: Codec<F>, a: Any) {
    match a
    case NilList => true
    case NilObjects => true
    case Objects(os) => forall o <- os :: o.Some? && DecodeSchema(c, o).Ok?
    case List(items) =>
      forall item <- items :: !item.NilMap? &&
        DecodeSchema(c, Some(if item.Obj? then item.o else Object(map[]))).Ok?
    case _ => false
  }

  lemma SchemasExactly<F>(c: Codec<F>, a: Any)
    ensures SchemasIn(c, a).Ok? <==> IsSchemaList(c, a)
    ensures SchemasIn(c, a).Ok? ==> forall s <- SchemasIn(c, a).value :: s.Some?
    ensures SchemasIn(c, a).Error? ==>
              SchemasIn(c, a).reason == if a.List? || a.Objects? then BadSchema else SchemasNotAList
    ensures SchemasIn(c, a).Ok? && a.List? ==>
              && |SchemasIn(c, a).value| == |a.items|
              && forall i :: 0 <= i < |a.items| ==>
                   Ok(SchemasIn(c, a).value[i].value) ==
                   DecodeSchema(c, Some(if a.items[i].Obj? then a.items[i].o else Object(map[])))
    ensures SchemasIn(c, a).Ok? && a.Objects? ==>
              && |SchemasIn(c, a).value| == |a.objects|
              && forall i :: 0 <= i < |a.objects| ==>
                   Ok(SchemasIn(c, a).value[i].value) == DecodeSchema(c, a.objects[i])
  {
    NilIsNoSchema(c);
    hide DecodeSchema;
    if a.List? {
      assert forall i :: 0 <= i < |a.items| ==> a.items[i] in a.items;
    } else if a.Objects? {
      assert forall i :: 0 <= i < |a.objects| ==> a.objects[i] in a.objects;
    }
  }

  /** A config schema decodes when it is a map JSON can write, each field of its type or null, none spelled twice. */
  lemma SchemaDecodes<F>(c: Codec<F>, raw: Option<Object>)
    ensures DecodeSchema(c, raw).Ok? <==>
            && raw.Some? && FiniteObject(raw.value)
            && var o := StoreObject(raw.value).fields;
            && TextOrNull(o, KEY) && TextOrNull(o, TITLE) && TextOrNull(o, DESCRIPTION)
            && TextOrNull(o, JSON_SCHEMA) && TextOrNull(o, JSON_SCHEMA_CAMEL)
            && (REQUIRED in o ==> o[REQUIRED].Null? || o[REQUIRED].Bool?)
            && (ADMIN_FORM in o ==> o[ADMIN_FORM].Null? || c.decode(o[ADMIN_FORM]).Some?)
            && (ADMIN_FORM_CAMEL in o ==> o[ADMIN_FORM_CAMEL].Null? || c.decode(o[ADMIN_FORM_CAMEL]).Some?)
            && !(JSON_SCHEMA in o && JSON_SCHEMA_CAMEL in o) && !(ADMIN_FORM in o && ADMIN_FORM_CAMEL in o)
    ensures DecodeSchema(c, raw).Ok? ==>
              var o, s := StoreObject(raw.value).fields, DecodeSchema(c, raw).value;
              && s.key == TextAt(o, KEY) && s.title == TextAt(o, TITLE) && s.description == TextAt(o, DESCRIPTION)
              && s.jsonSchema == TextAt(o, if JSON_SCHEMA in o then JSON_SCHEMA else JSON_SCHEMA_CAMEL)
              && (s.required <==> REQUIRED in o && o[REQUIRED] == Bool(true))
              && var k := if ADMIN_FORM in o then ADMIN_FORM else ADMIN_FORM_CAMEL;
                 s.adminForm == if k in o && !o[k].Null? then c.decode(o[k]) else None
  {
    hide FiniteObject, StoreObject;
  }

  predicate TextOrNull(o: map<Key, Any>, k: Key) {
    k in o ==> o[k].Null? || o[k].Str?
  }

  /** Which records decode: each value that must have a shape has it; everything else is taken or passed over. */
  lemma DecodesExactly<W, R, F>(c: Codecs<W, R, F>, typ: string, id: string, m: map<Key, Any>)
    ensures Decode(c, Record(typ, id, Some(m))).Ok? <==>
            && (SUBSCRIPTIONS in m ==> IsTextList(m[SUBSCRIPTIONS]))
            && (AUTH_MODES in m ==> IsTextList(m[AUTH_MODES]))
            && (WATCH_SYNC_PROVIDER in m ==>
                 Finite(m[WATCH_SYNC_PROVIDER]) && c.watchSync.decode(Store(m[WATCH_SYNC_PROVIDER])).Some?)
            && (REQUEST_ROUTER in m ==> Finite(m[REQUEST_ROUTER]) && c.router.decode(Store(m[REQUEST_ROUTER])).Some?)
            && (CONFIG_SCHEMA in m ==> IsSchemaList(c.form, m[CONFIG_SCHEMA]))
            && (METADATA in m && m[METADATA].Obj? ==> AcceptedObject(m[METADATA].o))
  {
    hide Texts, SchemasIn, IsTextList, IsSchemaList, Finite, Store, AcceptedObject, NewStruct;
    if SUBSCRIPTIONS in m { TextsExactly(m[SUBSCRIPTIONS]); }
    if AUTH_MODES in m { TextsExactly(m[AUTH_MODES]); }
    if CONFIG_SCHEMA in m { SchemasExactly(c.form, m[CONFIG_SCHEMA]); }
    EmptyStruct();
  }

  /** Which error a record gives that does not decode: that of the first value at fault, in the code's order. */
  lemma FirstErrorDecides<W, R, F>(c: Codecs<W, R, F>, typ: string, id: string, m: map<Key, Any>)
    requires Decode(c, Record(typ, id, Some(m))).Error?
    ensures Decode(c, Record(typ, id, Some(m))).reason ==
            if SUBSCRIPTIONS in m && !IsTextList(m[SUBSCRIPTIONS]) then
              if m[SUBSCRIPTIONS].List? then NotAString else NotAList
            else if AUTH_MODES in m && !IsTextList(m[AUTH_MODES]) then
              if m[AUTH_MODES].List? then NotAString else NotAList
            else if (WATCH_SYNC_PROVIDER in m && MessageAt(c.watchSync, m, WATCH_SYNC_PROVIDER).Error?)
                    || (REQUEST_ROUTER in m && MessageAt(c.router, m, REQUEST_ROUTER).Error?) then BadMessage
            else if CONFIG_SCHEMA in m && !IsSchemaList(c.form, m[CONFIG_SCHEMA]) then
              if m[CONFIG_SCHEMA].List? || m[CONFIG_SCHEMA].Objects? then BadSchema else SchemasNotAList
            else BadMetadata
  {
    hide Texts, SchemasIn, IsTextList, IsSchemaList, Finite, Store, AcceptedObject, NewStruct;
    if SUBSCRIPTIONS in m { TextsExactly(m[SUBSCRIPTIONS]); }
    if AUTH_MODES in m { TextsExactly(m[AUTH_MODES]); }
    if CONFIG_SCHEMA in m { SchemasExactly(c.form, m[CONFIG_SCHEMA]); }
    MessageReasons(c.watchSync, m, WATCH_SYNC_PROVIDER);
    MessageReasons(c.router, m, REQUEST_ROUTER);
  }

  /** What the descriptor then says, field by field; names that are not strings count as absent. */
  lemma DecodedFields<W, R, F>(c: Codecs<W, R, F>, typ: string, id: string, m: map<Key, Any>)
    requires Decode(c, Record(typ, id, Some(m))).Ok?
    ensures var d := Decode(c, Record(typ, id, Some(m))).value;
            && d.typ == typ && d.id == id && d.networkAccess == None
            && d.displayName == (if DISPLAY_NAME in m && m[DISPLAY_NAME].Str? then m[DISPLAY_NAME].s else "")
            && d.description == (if DESCRIPTION in m && m[DESCRIPTION].Str? then m[DESCRIPTION].s else "")
            && d.iconUrl == (if ICON_URL in m && m[ICON_URL].Str? then m[ICON_URL].s else "")
            && (if SUBSCRIPTIONS in m then TextListOf(m[SUBSCRIPTIONS], d.subscriptions) else d.subscriptions == [])
            && (if AUTH_MODES in m then TextListOf(m[AUTH_MODES], d.authModes) else d.authModes == [])
            && d.watchSync ==
                 (if WATCH_SYNC_PROVIDER in m then c.watchSync.decode(Store(m[WATCH_SYNC_PROVIDER])) else None)
            && d.router == (if REQUEST_ROUTER in m then c.router.decode(Store(m[REQUEST_ROUTER])) else None)
            && (if CONFIG_SCHEMA in m then Ok(d.configSchema) == SchemasIn(c.form, m[CONFIG_SCHEMA])
                else d.configSchema == [])
            && (d.metadata.Some? <==> METADATA in m)
            && (METADATA in m ==>
                 d.metadata.value == if m[METADATA].Obj? then NewStruct(m[METADATA].o) else Object(map[]))
  {
    hide Texts, TextListOf, SchemasIn, Finite, Store, AcceptedObject, NewStruct;
    if SUBSCRIPTIONS in m { TextsExactly(m[SUBSCRIPTIONS]); }
    if AUTH_MODES in m { TextsExactly(m[AUTH_MODES]); }
    assert NewStruct(Object(map[])) == Object(map[]) by { EmptyStruct(); }
  }

  lemma EmptyStruct()
    ensures AcceptedObject(Object(map[])) && NewStruct(Object(map[])) == Object(map[])
  {}

  /** A record without metadata keeps its type and id, and has nothing else. */
  lemma NoMetadata<W, R, F>(c: Codecs<W, R, F>, typ: string, id: string)
    ensures Decode(c, Record(typ, id, None)) == Ok(Descriptor(typ, id, "", "", [], [], "", None, None, None, [], None))
  {}

  /** `AsMap` spells non-finite numbers out, at every depth, and changes nothing else. */
  lemma AsMapSpells(o: Object, k: Key)
    requires k in o.fields
    ensures AsMap(o).fields.Keys == o.fields.Keys
    ensures match o.fields[k]
            case NonFinite(name) => AsMap(o).fields[k] == Str(name)
            case Obj(inner) => AsMap(o).fields[k] == Obj(AsMap(inner))
            case List(items) =>
              && AsMap(o).fields[k].List? && |AsMap(o).fields[k].items| == |items|
              && (forall i :: 0 <= i < |items| && items[i].NonFinite? ==>
                   AsMap(o).fields[k].items[i] == Str(items[i].spelling))
            case other => AsMap(o).fields[k] == other
  {
    assert AsMap(o).fields[k] == Spelled(o.fields[k]);
  }

  // ----- Storage and unknown keys

  function StoreRecord(r: Record): Record {
    match r.metadata
    case None => r
    case Some(m) => r.(metadata := Some(map k | k in m :: Store(m[k])))
  }

  // The shapes whose meaning storage leaves alone, for a list of strings, schemas and a Struct.

  predicate TextShape(m: map<Key, Any>, key: Key) {
    key in m ==> !m[key].Objects? && !m[key].NilStrings? && !m[key].NilList?
  }

  predicate SchemaShape(m: map<Key, Any>) {
    CONFIG_SCHEMA in m ==>
      match m[CONFIG_SCHEMA]
      case Strings(_) => false
      case NilList => false
      case NilObjects => false
      case List(items) => NilMap !in items
      case Objects(objects) => None !in objects
      case _ => true
  }

  predicate StructShape(m: map<Key, Any>) {
    METADATA in m && m[METADATA].Obj? ==> PlainObject(m[METADATA].o)
  }

  /**
   * The shapes that can be stored, and whose meaning does not depend on it. What storage would
   * change: a list of objects is no list of strings until it is stored empty, a list of strings is
   * no list of schemas until it is stored, a Struct accepts typed slices only once they are stored,
   * and nil slices and maps count as empty ones until they are stored as null.
   */
  predicate Storable(r: Record) {
    r.metadata.Some? ==>
      var m := r.metadata.value;
      && (forall k <- m :: Finite(m[k]))
      && TextShape(m, SUBSCRIPTIONS) && TextShape(m, AUTH_MODES) && SchemaShape(m) && StructShape(m)
  }

  lemma StoredTexts(a: Any)
    requires !a.Objects? && !a.NilStrings? && !a.NilList?
    ensures Texts(Store(a)) == Texts(a)
  {
    if a.List? {
      var stored := Store(a).items;
      assert forall i :: 0 <= i < |stored| ==> stored[i] == Store(a.items[i]);
      assert forall i :: 0 <= i < |stored| ==> (stored[i].Str? <==> a.items[i].Str?);
      if forall i :: 0 <= i < |stored| ==> stored[i].Str? {
        assert TextsOf(stored) == TextsOf(a.items);
      }
    } else if a.Strings? {
      assert TextsOf(Store(a).items) == a.texts;
    }
  }

  lemma StoredObjectTwice(o: Object)
    ensures StoreObject(StoreObject(o)) == StoreObject(o)
  {
    StoredObjectIsPlain(o);
    PlainObjectIsStored(StoreObject(o));
  }

  lemma StoredSchema<F>(c: Codec<F>, o: Object)
    ensures DecodeSchema(c, Some(StoreObject(o))) == DecodeSchema(c, Some(o))
  {
    StoredObjectTwice(o);
    StoreObjectKeepsFinite(o);
  }

  lemma EmptyObjectDecodes<F>(c: Codec<F>)
    ensures DecodeSchema(c, Some(Object(map[]))) == Ok(EmptySchema())
  {
    assert StoreObject(Object(map[])) == Object(map[]);
  }

  /** An entry decodes the same once stored, except that a nil map then counts as an empty one. */
  lemma StoredEntry<F>(c: Codec<F>, a: Any, i: nat)
    requires SchemaObjects(a).Ok? && SchemaObjects(Store(a)).Ok? && i < |SchemaObjects(a).value|
    ensures |SchemaObjects(Store(a)).value| == |SchemaObjects(a).value|
    ensures var o, p := SchemaObjects(a).value[i], SchemaObjects(Store(a)).value[i];
            DecodeSchema(c, p) == if o.Some? then DecodeSchema(c, o) else Ok(EmptySchema())
  {
    hide DecodeSchema;
    var o, p := SchemaObjects(a).value[i], SchemaObjects(Store(a)).value[i];
    EmptyObjectDecodes(c);
    assert StoreObject(Object(map[])) == Object(map[]);
    if a.List? {
      assert Store(a).items[i] == Store(a.items[i]);
    }
    assert p == if o.Some? then Some(StoreObject(o.value)) else Some(Object(map[]));
    if o.Some? {
      StoredSchema(c, o.value);
    }
  }

  lemma StoredLength(a: Any)
    requires SchemaObjects(a).Ok? && SchemaObjects(Store(a)).Ok?
    ensures |SchemaObjects(Store(a)).value| == |SchemaObjects(a).value|
  {}

  lemma StoredSchemas<F>(c: Codec<F>, a: Any)
    requires SchemaObjects(a).Ok? && SchemaObjects(Store(a)).Ok? && None !in SchemaObjects(a).value
    ensures DecodeEach(c, SchemaObjects(Store(a)).value) == DecodeEach(c, SchemaObjects(a).value)
  {
    hide DecodeSchema, SchemaObjects;
    var os, ps := SchemaObjects(a).value, SchemaObjects(Store(a)).value;
    StoredLength(a);
    forall i | 0 <= i < |os| ensures DecodeSchema(c, ps[i]) == DecodeSchema(c, os[i]) {
      assert os[i] in os;
      StoredEntry(c, a, i);
    }
    if forall i :: 0 <= i < |os| ==> DecodeSchema(c, os[i]).Ok? {
      assert SchemasOf(c, ps) == SchemasOf(c, os);
    }
  }

  /** A record decodes the same before and after storage. */
  lemma StorageShapeIndependence<W, R, F>(c: Codecs<W, R, F>, r: Record)
    requires Storable(r)
    ensures Decode(c, StoreRecord(r)) == Decode(c, r)
  {
    hide TextAt, TextsAt, MessageAt, SchemasAt, StructAt, Store, Plain, PlainObject, SchemaShape;
    if r.metadata.Some? {
      var m, n := r.metadata.value, StoreRecord(r).metadata.value;
      StoredTextsAt(m, n, SUBSCRIPTIONS);
      StoredTextsAt(m, n, AUTH_MODES);
      StoredMessageAt(c.watchSync, m, n, WATCH_SYNC_PROVIDER);
      StoredMessageAt(c.router, m, n, REQUEST_ROUTER);
      StoredSchemasAt(c.form, m, n);
      StoredStructAt(m, n);
      StoredTextAt(m, n, DISPLAY_NAME);
      StoredTextAt(m, n, DESCRIPTION);
      StoredTextAt(m, n, ICON_URL);
    }
  }

  ghost predicate IsStored(m: map<Key, Any>, n: map<Key, Any>) {
    n == map k | k in m :: Store(m[k])
  }

  lemma StoredTextAt(m: map<Key, Any>, n: map<Key, Any>, key: Key)
    requires IsStored(m, n)
    ensures TextAt(n, key) == TextAt(m, key)
  {}

  lemma StoredTextsAt(m: map<Key, Any>, n: map<Key, Any>, key: Key)
    requires IsStored(m, n) && TextShape(m, key)
    ensures TextsAt(n, key) == TextsAt(m, key)
  {
    hide Texts;
    if key in m {
      StoredTexts(m[key]);
    }
  }

  lemma StoredMessageAt<M>(c: Codec<M>, m: map<Key, Any>, n: map<Key, Any>, key: Key)
    requires IsStored(m, n)
    ensures MessageAt(c, n, key) == MessageAt(c, m, key)
  {
    if key in m {
      StoreTwice(m[key]);
      StoreKeepsFinite(m[key]);
    }
  }

  lemma StoredSchemasAt<F>(c: Codec<F>, m: map<Key, Any>, n: map<Key, Any>)
    requires IsStored(m, n) && SchemaShape(m)
    ensures SchemasAt(c, n) == SchemasAt(c, m)
  {
    hide DecodeEach;
    if CONFIG_SCHEMA in m && (m[CONFIG_SCHEMA].List? || m[CONFIG_SCHEMA].Objects?) {
      NoNilEntry(m[CONFIG_SCHEMA]);
      StoredSchemas(c, m[CONFIG_SCHEMA]);
    }
  }

  lemma NoNilEntry(a: Any)
    requires a.List? || a.Objects?
    ensures SchemaObjects(a).Ok? && SchemaObjects(Store(a)).Ok?
    ensures None in SchemaObjects(a).value <==> if a.List? then NilMap in a.items else None in a.objects
  {
    if a.List? && NilMap in a.items {
      var i :| 0 <= i < |a.items| && a.items[i] == NilMap;
      assert SchemaObjects(a).value[i] == None;
    }
  }

  lemma StoredStructAt(m: map<Key, Any>, n: map<Key, Any>)
    requires IsStored(m, n)
    ensures StructAt(n).Ok?
    ensures StructAt(n) == StructAt(m) <==> StructShape(m)
    ensures StructAt(m).Ok? || StructAt(m) == Error(BadMetadata)
  {
    if METADATA in m {
      assert Store(m[METADATA]).Obj? <==> m[METADATA].Obj?;
      if m[METADATA].Obj? {
        var o := m[METADATA].o;
        StoredObjectIsPlain(o);
        StructOfObject(o);
        StructOfObject(StoreObject(o));
        if PlainObject(o) {
          PlainObjectIsStored(o);
        }
      } else {
        assert NewStruct(Object(map[])) == Object(map[]);
      }
    }
  }

  /** Some entry that is not nil fails, so that nil entries make no difference to the outcome. */
  predicate FailsAnyway<F>(c: Codec<F>, m: map<Key, Any>) {
    && CONFIG_SCHEMA in m && (m[CONFIG_SCHEMA].List? || m[CONFIG_SCHEMA].Objects?)
    && exists o <- SchemaObjects(m[CONFIG_SCHEMA]).value :: o.Some? && DecodeSchema(c, o).Error?
  }

  /**
   * In the order of decoding: no shape that storage changes comes before the first failure. (One
   * that does may be covered up, when the next key or another entry fails for the same reason.)
   */
  predicate Settled<W, R, F>(c: Codecs<W, R, F>, m: map<Key, Any>) {
    if !TextShape(m, SUBSCRIPTIONS) then
      if m[SUBSCRIPTIONS].Objects? then m[SUBSCRIPTIONS] == Objects([]) && NoList(Store(FieldOf(m, AUTH_MODES)))
      else NoList(FieldOf(m, AUTH_MODES))
    else TextsAt(m, SUBSCRIPTIONS).Ok? ==>
      && TextShape(m, AUTH_MODES)
      && (TextsAt(m, AUTH_MODES).Ok? && MessageAt(c.watchSync, m, WATCH_SYNC_PROVIDER).Ok? &&
          MessageAt(c.router, m, REQUEST_ROUTER).Ok? ==>
        && (SchemaShape(m) || FailsAnyway(c.form, m))
        && (SchemasAt(c.form, m).Ok? ==> StructShape(m)))
  }

  /** The value under a key; an absent list of strings is as good as an empty one. */
  function FieldOf(m: map<Key, Any>, key: Key): Any {
    if key in m then m[key] else List([])
  }

  predicate NoList(a: Any) {
    !a.Strings? && !a.NilStrings? && !a.List? && !a.NilList?
  }

  lemma TextsReasons(m: map<Key, Any>, key: Key)
    ensures TextsAt(m, key) == Error(NotAList) <==> NoList(FieldOf(m, key))
    ensures TextsAt(m, key).Ok? || TextsAt(m, key).reason == NotAList || TextsAt(m, key).reason == NotAString
  {}

  lemma ChangedTexts(m: map<Key, Any>, n: map<Key, Any>, key: Key)
    requires IsStored(m, n) && !TextShape(m, key)
    ensures TextsAt(m, key) == if m[key].Objects? then Error(NotAList) else Ok([])
    ensures TextsAt(n, key) ==
            if m[key] == Objects([]) then Ok([]) else if m[key].Objects? then Error(NotAString) else Error(NotAList)
  {
    if m[key].Objects? {
      var items := n[key].items;
      assert |items| == |m[key].objects|;
      if m[key].objects != [] {
        assert !items[0].Str?;
      } else {
        assert TextsOf(items) == [];
      }
    }
  }

  lemma NilIsNoSchema<F>(c: Codec<F>)
    ensures DecodeSchema(c, None) == Error(BadSchema)
  {}

  /** A nil entry fails when fresh, and once stored it is the empty schema. */
  lemma NilEntry<F>(c: Codec<F>, a: Any)
    requires SchemaObjects(a).Ok? && SchemaObjects(Store(a)).Ok? && None in SchemaObjects(a).value
    ensures var os, ps := SchemaObjects(a).value, SchemaObjects(Store(a)).value;
            && DecodeEach(c, os) == Error(BadSchema)
            && if exists o <- os :: o.Some? && DecodeSchema(c, o).Error?
               then DecodeEach(c, ps) == Error(BadSchema) else DecodeEach(c, ps).Ok?
  {
    hide DecodeSchema, SchemaObjects;
    var os, ps := SchemaObjects(a).value, SchemaObjects(Store(a)).value;
    NilIsNoSchema(c);
    StoredLength(a);
    forall i | 0 <= i < |os|
      ensures DecodeSchema(c, ps[i]).Error? <==> os[i].Some? && DecodeSchema(c, os[i]).Error?
    {
      StoredEntry(c, a, i);
    }
    hide Store;
    var j :| 0 <= j < |os| && os[j] == None;
    assert !DecodeSchema(c, os[j]).Ok?;
    if o :| o in os && o.Some? && DecodeSchema(c, o).Error? {
      var i :| 0 <= i < |os| && os[i] == o;
      assert !DecodeSchema(c, ps[i]).Ok?;
    } else {
      forall i | 0 <= i < |ps| ensures DecodeSchema(c, ps[i]).Ok? {
        assert os[i] in os;
      }
    }
  }

  lemma ChangedSchemas<F>(c: Codec<F>, m: map<Key, Any>, n: map<Key, Any>)
    requires IsStored(m, n) && !SchemaShape(m)
    ensures var unstored, stored := SchemasAt(c, m), SchemasAt(c, n);
            && (unstored.Ok? <==> m[CONFIG_SCHEMA].NilList? || m[CONFIG_SCHEMA].NilObjects?)
            && (unstored.Ok? ==> stored == Error(SchemasNotAList))
            && (unstored.Error? ==> if FailsAnyway(c, m) then stored == unstored else stored.Ok?)
  {
    var a := m[CONFIG_SCHEMA];
    if a.Strings? {
      StringsAreNoSchemas(c, a);
    } else if a.List? || a.Objects? {
      NoNilEntry(a);
      hide DecodeSchema, DecodeEach;
      NilEntry(c, a);
    }
  }

  lemma StringsAreNoSchemas<F>(c: Codec<F>, a: Any)
    requires a.Strings?
    ensures SchemasIn(c, a) == Error(SchemasNotAList) && SchemasIn(c, Store(a)).Ok?
  {
    EmptyObjectDecodes(c);
    hide DecodeSchema;
    var ps := SchemaObjects(Store(a)).value;
    assert forall i :: 0 <= i < |ps| ==> ps[i] == Some(Object(map[]));
  }

  lemma SchemasReasons<F>(c: Codec<F>, m: map<Key, Any>)
    ensures SchemasAt(c, m).Ok? || SchemasAt(c, m).reason == BadSchema || SchemasAt(c, m).reason == SchemasNotAList
  {
    hide DecodeSchema;
  }

  lemma MessageReasons<M>(c: Codec<M>, m: map<Key, Any>, key: Key)
    ensures MessageAt(c, m, key).Error? ==> MessageAt(c, m, key).reason == BadMessage
  {}

  /** The list of strings under a key, before and after storage. */
  lemma StringsBeforeAndAfter(m: map<Key, Any>, n: map<Key, Any>, key: Key)
    requires IsStored(m, n)
    ensures TextShape(m, key) ==> TextsAt(n, key) == TextsAt(m, key)
    ensures !TextShape(m, key) ==> TextsAt(n, key) != TextsAt(m, key)
    ensures !TextShape(m, key) ==>
              TextsAt(m, key) == if m[key].Objects? then Error(NotAList) else Ok([])
    ensures !TextShape(m, key) ==>
              TextsAt(n, key) ==
              if m[key] == Objects([]) then Ok([]) else if m[key].Objects? then Error(NotAString) else Error(NotAList)
    ensures TextsAt(n, key) == Error(NotAList) <==> NoList(Store(FieldOf(m, key)))
    ensures TextsAt(m, key) == Error(NotAList) <==> NoList(FieldOf(m, key))
  {
    TextsReasons(m, key);
    TextsReasons(n, key);
    assert key !in m ==> Store(FieldOf(m, key)) == List([]);
    if TextShape(m, key) {
      StoredTextsAt(m, n, key);
    } else {
      ChangedTexts(m, n, key);
    }
  }

  /** The schemas, before and after storage. */
  lemma SchemasBeforeAndAfter<F>(c: Codec<F>, m: map<Key, Any>, n: map<Key, Any>)
    requires IsStored(m, n)
    ensures SchemasAt(c, n) == SchemasAt(c, m) <==> SchemaShape(m) || FailsAnyway(c, m)
    ensures SchemasAt(c, n) != SchemasAt(c, m) ==> SchemasAt(c, n).Ok? || SchemasAt(c, n) == Error(SchemasNotAList)
    ensures SchemasAt(c, n) != SchemasAt(c, m) ==> SchemasAt(c, n).Ok? == SchemasAt(c, m).Error?
    ensures SchemasAt(c, m).Ok? || SchemasAt(c, m).reason == BadSchema || SchemasAt(c, m).reason == SchemasNotAList
  {
    hide SchemasAt, SchemaShape, FailsAnyway;
    SchemasReasons(c, m);
    if SchemaShape(m) {
      StoredSchemasAt(c, m, n);
    } else {
      ChangedSchemas(c, m, n);
      NilListsDoNotFail(c, m);
    }
  }

  lemma NilListsDoNotFail<F>(c: Codec<F>, m: map<Key, Any>)
    ensures FailsAnyway(c, m) ==> !m[CONFIG_SCHEMA].NilList? && !m[CONFIG_SCHEMA].NilObjects?
  {}

  /**
   * Exactly when storage leaves the meaning of a record that JSON can write alone: when decoding
   * fails, or ends, before it comes to a shape that storage changes.
   */
  lemma StorageExactly<W, R, F>(c: Codecs<W, R, F>, r: Record)
    requires r.metadata.Some? ==> forall k <- r.metadata.value :: Finite(r.metadata.value[k])
    ensures Decode(c, StoreRecord(r)) == Decode(c, r) <==> (r.metadata.Some? ==> Settled(c, r.metadata.value))
  {
    hide TextAt, TextsAt, MessageAt, SchemasAt, StructAt, Store, Plain, PlainObject, Finite;
    hide TextShape, SchemaShape, StructShape, FailsAnyway, NoList, FieldOf;
    if r.metadata.Some? {
      var m, n := r.metadata.value, StoreRecord(r).metadata.value;
      StringsBeforeAndAfter(m, n, SUBSCRIPTIONS);
      StringsBeforeAndAfter(m, n, AUTH_MODES);
      SchemasBeforeAndAfter(c.form, m, n);
      StoredStructAt(m, n);
      StoredMessageAt(c.watchSync, m, n, WATCH_SYNC_PROVIDER);
      StoredMessageAt(c.router, m, n, REQUEST_ROUTER);
      StoredTextAt(m, n, DISPLAY_NAME);
      StoredTextAt(m, n, DESCRIPTION);
      StoredTextAt(m, n, ICON_URL);
      MessageReasons(c.watchSync, m, WATCH_SYNC_PROVIDER);
      MessageReasons(c.router, m, REQUEST_ROUTER);
    }
  }

  /** Such a shape: a list of strings as schemas is refused when fresh and accepted after storage. */
  lemma StorageMayAccept<W, R, F>(c: Codecs<W, R, F>)
    ensures var r := Record("", "", Some(map[CONFIG_SCHEMA := Strings([])]));
            !Storable(r) && Decode(c, r) == Error(SchemasNotAList) && Decode(c, StoreRecord(r)).Ok?
  {
    hide DecodeSchema, Plain, PlainObject;
    var m := map[CONFIG_SCHEMA := Strings([])];
    var n := StoreRecord(Record("", "", Some(m))).metadata.value;
    StringsAreNoSchemas(c.form, m[CONFIG_SCHEMA]);
    hide SchemasIn, Store;
    assert n.Keys == {CONFIG_SCHEMA};
  }

  /** And the other way round: a nil list of strings is accepted when fresh and refused after storage. */
  lemma StorageMayRefuse<W, R, F>(c: Codecs<W, R, F>)
    ensures var r := Record("", "", Some(map[SUBSCRIPTIONS := NilStrings]));
            !Storable(r) && Decode(c, r).Ok? && Decode(c, StoreRecord(r)) == Error(NotAList)
  {
    hide DecodeSchema, Plain, PlainObject;
    var m := map[SUBSCRIPTIONS := NilStrings];
    var n := StoreRecord(Record("", "", Some(m))).metadata.value;
    assert n.Keys == {SUBSCRIPTIONS} && n[SUBSCRIPTIONS] == Null;
  }

  lemma CarriedIsFinite<W(!new), R(!new), F(!new)>(c: Codecs<W, R, F>, d: Descriptor<W, R, F>, key: Key)
    requires Inverses(c) && WellFormed(d) && Carries(d, key)
    ensures Finite(Carried(c, d, key))
  {
    hide SchemaEntry;
    if key == CONFIG_SCHEMA {
      forall i | 0 <= i < |d.configSchema| {
        EntryIsJson(c.form, d.configSchema[i]);
      }
    } else if key == METADATA {
      AsMapIsJson(d.metadata.value);
    }
  }

  lemma CarriedShapes<W, R, F>(c: Codecs<W, R, F>, d: Descriptor<W, R, F>)
    requires WellFormed(d)
    ensures var m := Encode(c, d);
            TextShape(m, SUBSCRIPTIONS) && TextShape(m, AUTH_MODES) && SchemaShape(m) && StructShape(m)
  {
    if d.metadata.Some? {
      AsMapIsJson(d.metadata.value);
    }
  }

  /** Fresh records have such shapes, so stored or not they give the descriptor back. */
  lemma StoredRoundTrip<W(!new), R(!new), F(!new)>(c: Codecs<W, R, F>, d: Descriptor<W, R, F>)
    requires Inverses(c) && WellFormed(d)
    ensures Storable(RecordOf(c, d))
    ensures Decode(c, StoreRecord(RecordOf(c, d))) == Ok(Normal(d))
  {
    hide Decode, StoreRecord, Plain, Finite, Carries, Carried, TextShape, SchemaShape, StructShape;
    RoundTrip(c, d);
    forall key | Carries(d, key) ensures Finite(Carried(c, d, key)) {
      CarriedIsFinite(c, d, key);
    }
    CarriedShapes(c, d);
    StorageShapeIndependence(c, RecordOf(c, d));
  }

  /** Metadata keys the decoder does not know never change what it returns, errors included. */
  lemma UnknownKeysAreIgnored<W, R, F>(c: Codecs<W, R, F>, r: Record, extra: map<Key, Any>)
    requires r.metadata.Some? && extra.Keys !! KNOWN_KEYS
    ensures Decode(c, r.(metadata := Some(r.metadata.value + extra))) == Decode(c, r)
  {
    hide TextAt, TextsAt, MessageAt, SchemasAt, StructAt;
    var m, n := r.metadata.value, r.metadata.value + extra;
    SameReading(c, m, n, DISPLAY_NAME);
    SameReading(c, m, n, DESCRIPTION);
    SameReading(c, m, n, SUBSCRIPTIONS);
    SameReading(c, m, n, AUTH_MODES);
    SameReading(c, m, n, ICON_URL);
    SameReading(c, m, n, WATCH_SYNC_PROVIDER);
    SameReading(c, m, n, REQUEST_ROUTER);
    SameSchemasAndStruct(c, m, n);
  }

  predicate SameAt(m: map<Key, Any>, n: map<Key, Any>, key: Key) {
    (key in n <==> key in m) && (key in m ==> n[key] == m[key])
  }

  lemma SameReading<W, R, F>(c: Codecs<W, R, F>, m: map<Key, Any>, n: map<Key, Any>, key: Key)
    requires SameAt(m, n, key)
    ensures TextAt(n, key) == TextAt(m, key) && TextsAt(n, key) == TextsAt(m, key)
    ensures MessageAt(c.watchSync, n, key) == MessageAt(c.watchSync, m, key)
    ensures MessageAt(c.router, n, key) == MessageAt(c.router, m, key)
  {}

  lemma SameSchemasAndStruct<W, R, F>(c: Codecs<W, R, F>, m: map<Key, Any>, n: map<Key, Any>)
    requires SameAt(m, n, CONFIG_SCHEMA) && SameAt(m, n, METADATA)
    ensures SchemasAt(c.form, n) == SchemasAt(c.form, m) && StructAt(n) == StructAt(m)
  {}

  /** Nor do keys of a config schema that it does not know, as long as JSON can write their values. */
  lemma UnknownSchemaKeysAreIgnored<F>(c: Codec<F>, o: Object, extra: map<Key, Any>)
    requires extra.Keys !! SCHEMA_NAMES && extra.Keys !! o.fields.Keys
    ensures DecodeSchema(c, Some(Object(o.fields + extra))) ==
            if FiniteObject(Object(extra)) then DecodeSchema(c, Some(o)) else Error(BadSchema)
  {
    var more := Object(o.fields + extra);
    assert FiniteObject(more) <==> FiniteObject(o) && FiniteObject(Object(extra)) by {
      assert forall k <- extra :: k in more.fields && more.fields[k] == extra[k];
      assert forall k <- o.fields :: k in more.fields && more.fields[k] == o.fields[k];
    }
    hide FiniteObject;
    forall k <- SCHEMA_NAMES
      ensures k in StoreObject(more).fields <==> k in StoreObject(o).fields
      ensures FieldAt(StoreObject(more), k) == FieldAt(StoreObject(o), k)
    {
      assert k in SCHEMA_NAMES && k !in extra;
    }
    SameFields(c, StoreObject(more), StoreObject(o));
  }

  /** A config schema depends on its known fields alone. */
  lemma SameFields<F>(c: Codec<F>, o: Object, p: Object)
    requires forall k <- SCHEMA_NAMES :: (k in o.fields <==> k in p.fields) && FieldAt(o, k) == FieldAt(p, k)
    ensures DecodeJson(c, o) == DecodeJson(c, p)
  {
    assert forall k <- [KEY, TITLE, DESCRIPTION, JSON_SCHEMA, REQUIRED, ADMIN_FORM, JSON_SCHEMA_CAMEL, ADMIN_FORM_CAMEL]
      :: k in SCHEMA_NAMES;
  }

  // ----- The source's own form

  method ToStringSlice(value: Any) returns (r: Result<seq<string>>)
    ensures r == Texts(value)
  {
    match value
    case Strings(texts) => r := Ok(texts);
    case NilStrings => r := Ok([]);
    case NilList => r := Ok([]);
    case List(items) =>
      var result := [];
      for i := 0 to |items|
        invariant |result| == i && forall j :: 0 <= j < i ==> items[j].Str? && result[j] == items[j].s
      {
        if !items[i].Str? {
          return Error(NotAString);
        }
        result := result + [items[i].s];
      }
      assert result == TextsOf(items);
      r := Ok(result);
    case _ => r := Error(NotAList);
  }

  method DecodeConfigSchemas<F>(c: Codec<F>, value: Any) returns (r: Result<seq<Option<ConfigSchema<F>>>>)
    ensures r == SchemasIn(c, value)
  {
    hide DecodeSchema;
    var entries: seq<Option<Object>> := [];
    match value {
      case List(items) =>
        for i := 0 to |items|
          invariant |entries| == i && forall j :: 0 <= j < i ==> entries[j] == AsObject(items[j])
        {
          entries := entries + [AsObject(items[i])];
        }
        assert entries == AsObjects(items);
      case Objects(objects) => entries := objects;
      case NilList =>
      case NilObjects =>
      case _ => return Error(SchemasNotAList);
    }
    var schemas := [];
    for i := 0 to |entries|
      invariant |schemas| == i
      invariant forall j :: 0 <= j < i ==>
        DecodeSchema(c, entries[j]).Ok? && schemas[j] == Some(DecodeSchema(c, entries[j]).value)
    {
      var schema := DecodeSchema(c, entries[i]);
      if schema.Error? {
        return Error(BadSchema);
      }
      schemas := schemas + [Some(schema.value)];
    }
    assert schemas == SchemasOf(c, entries);
    r := Ok(schemas);
  }

  method DecodeCapability<W, R, F>(c: Codecs<W, R, F>, record: Record) returns (r: Result<Descriptor<W, R, F>>)
    ensures r == Decode(c, record)
  {
    hide TextsAt, TextAt, DecodeMessages;
    var d: Descriptor<W, R, F> := Descriptor(record.typ, record.id, "", "", [], [], "", None, None, None, [], None);
    if record.metadata.None? {
      return Ok(d);
    }
    var m := record.metadata.value;
    var text := StringAt(m, DISPLAY_NAME);
    d := d.(displayName := text);
    text := StringAt(m, DESCRIPTION);
    d := d.(description := text);
    var list := StringsAt(m, SUBSCRIPTIONS);
    if list.Error? {
      return Error(list.reason);
    }
    d := d.(subscriptions := list.value);
    list := StringsAt(m, AUTH_MODES);
    if list.Error? {
      return Error(list.reason);
    }
    d := d.(authModes := list.value);
    text := StringAt(m, ICON_URL);
    d := d.(iconUrl := text);
    r := SetMessages(c, m, d);
  }

  /** A string under a key, the empty string for anything else. */
  method StringAt(m: map<Key, Any>, key: Key) returns (text: string)
    ensures text == TextAt(m, key)
  {
    text := "";
    if key in m && m[key].Str? {
      text := m[key].s;
    }
  }

  method StringsAt(m: map<Key, Any>, key: Key) returns (list: Result<seq<string>>)
    ensures list == TextsAt(m, key)
  {
    list := Ok([]);
    if key in m {
      list := ToStringSlice(m[key]);
    }
  }

  /** The second half of `DecodeCapability`: the nested messages, the schemas and the Struct. */
  method SetMessages<W, R, F>(c: Codecs<W, R, F>, m: map<Key, Any>, decoded: Descriptor<W, R, F>)
      returns (r: Result<Descriptor<W, R, F>>)
    requires decoded.watchSync == None && decoded.router == None
    requires decoded.configSchema == [] && decoded.metadata == None
    ensures r == DecodeMessages(c, m, decoded)
  {
    hide SchemasIn, Store, Plain, AcceptedObject, NewStruct, Finite;
    var d := decoded;
    if WATCH_SYNC_PROVIDER in m {
      if !Finite(m[WATCH_SYNC_PROVIDER]) {
        return Error(BadMessage);
      }
      var typed := c.watchSync.decode(Store(m[WATCH_SYNC_PROVIDER]));
      if typed.None? {
        return Error(BadMessage);
      }
      d := d.(watchSync := typed);
    }
    assert MessageAt(c.watchSync, m, WATCH_SYNC_PROVIDER) == Ok(d.watchSync);
    if REQUEST_ROUTER in m {
      if !Finite(m[REQUEST_ROUTER]) {
        return Error(BadMessage);
      }
      var typed := c.router.decode(Store(m[REQUEST_ROUTER]));
      if typed.None? {
        return Error(BadMessage);
      }
      d := d.(router := typed);
    }
    assert MessageAt(c.router, m, REQUEST_ROUTER) == Ok(d.router);
    if CONFIG_SCHEMA in m {
      var schemas := DecodeConfigSchemas(c.form, m[CONFIG_SCHEMA]);
      if schemas.Error? {
        return Error(schemas.reason);
      }
      d := d.(configSchema := schemas.value);
    }
    assert SchemasAt(c.form, m) == Ok(d.configSchema);
    if METADATA in m {
      var fields := AsObject(m[METADATA]);
      if fields.Some? && !AcceptedObject(fields.value) {
        return Error(BadMetadata);
      }
      d := d.(metadata := Some(if fields.Some? then NewStruct(fields.value) else Object(map[])));
    }
    r := Ok(d);
  }

  method CapabilityMetadata<W, R, F>(c: Codecs<W, R, F>, descriptor: Option<Descriptor<W, R, F>>)
      returns (r: Result<map<Key, Any>>)
    ensures r == if descriptor.None? then Error(NilDescriptor) else Ok(Encode(c, descriptor.value))
  {
    if descriptor.None? {
      return Error(NilDescriptor);
    }
    var d := descriptor.value;
    var metadata := map[DISPLAY_NAME := Str(d.displayName), DESCRIPTION := Str(d.description)];
    ghost var keys := {DISPLAY_NAME, DESCRIPTION};
    assert metadata == Part(c, d, keys);
    hide Part;
    OneMoreKey(c, d, keys, SUBSCRIPTIONS);
    keys := keys + {SUBSCRIPTIONS};
    if |d.subscriptions| > 0 {
      metadata := metadata[SUBSCRIPTIONS := Strings(d.subscriptions)];
    }
    assert metadata == Part(c, d, keys);
    OneMoreKey(c, d, keys, AUTH_MODES);
    keys := keys + {AUTH_MODES};
    if |d.authModes| > 0 {
      metadata := metadata[AUTH_MODES := Strings(d.authModes)];
    }
    assert metadata == Part(c, d, keys);
    OneMoreKey(c, d, keys, ICON_URL);
    keys := keys + {ICON_URL};
    if d.iconUrl != "" {
      metadata := metadata[ICON_URL := Str(d.iconUrl)];
    }
    assert metadata == Part(c, d, keys);
    metadata := AddMessages(c, d, metadata, keys);
    r := Ok(metadata);
  }

  /** The second half of `capabilityMetadata`: the nested messages, the schemas and the Struct. */
  method AddMessages<W, R, F>(c: Codecs<W, R, F>, d: Descriptor<W, R, F>, before: map<Key, Any>, ghost from: set<Key>)
      returns (metadata: map<Key, Any>)
    requires before == Part(c, d, from)
    requires from + {WATCH_SYNC_PROVIDER, REQUEST_ROUTER, CONFIG_SCHEMA, METADATA} == KNOWN_KEYS
    ensures metadata == Encode(c, d)
  {
    hide Part;
    metadata := before;
    ghost var keys := from + {WATCH_SYNC_PROVIDER};
    OneMoreKey(c, d, from, WATCH_SYNC_PROVIDER);
    if d.watchSync.Some? {
      metadata := metadata[WATCH_SYNC_PROVIDER := Obj(c.watchSync.encode(d.watchSync.value))];
    }
    assert metadata == Part(c, d, keys);
    OneMoreKey(c, d, keys, REQUEST_ROUTER);
    keys := keys + {REQUEST_ROUTER};
    if d.router.Some? {
      metadata := metadata[REQUEST_ROUTER := Obj(c.router.encode(d.router.value))];
    }
    assert metadata == Part(c, d, keys);
    OneMoreKey(c, d, keys, CONFIG_SCHEMA);
    keys := keys + {CONFIG_SCHEMA};
    if |d.configSchema| > 0 {
      var schemas := EncodeSchemas(c.form, d.configSchema);
      metadata := metadata[CONFIG_SCHEMA := Objects(schemas)];
    }
    assert metadata == Part(c, d, keys);
    OneMoreKey(c, d, keys, METADATA);
    keys := keys + {METADATA};
    if d.metadata.Some? {
      metadata := metadata[METADATA := Obj(AsMap(d.metadata.value))];
    }
    assert keys == KNOWN_KEYS;
  }

  method EncodeSchemas<F>(c: Codec<F>, ss: seq<Option<ConfigSchema<F>>>) returns (schemas: seq<Option<Object>>)
    ensures schemas == Entries(c, ss)
  {
    schemas := [];
    for i := 0 to |ss|
      invariant |schemas| == i && forall j :: 0 <= j < i ==> schemas[j] == Some(SchemaEntry(c, ss[j]))
    {
      if ss[i].None? {
        schemas := schemas + [Some(Object(map[]))];
      } else {
        var s := ss[i].value;
        var value := SchemaJson(c, s);
        value := value[KEY := Str(s.key)];
        value := value[TITLE := Str(s.title)];
        value := value[DESCRIPTION := Str(s.description)];
        value := value[JSON_SCHEMA := Str(s.jsonSchema)];
        value := value[REQUIRED := Bool(s.required)];
        RestoredKeys(c, s);
        schemas := schemas + [Some(Object(value))];
      }
    }
  }

  /** One record per capability, in manifest order; a nil capability fails the whole conversion. */
  method CapabilityRecordsFromManifest<W, R, F>(c: Codecs<W, R, F>, capabilities: seq<Option<Descriptor<W, R, F>>>)
      returns (r: Result<seq<Record>>)
    ensures r.Error? <==> exists i :: 0 <= i < |capabilities| && capabilities[i].None?
    ensures r.Error? ==> r.reason == NilDescriptor
    ensures r.Ok? ==> |r.value| == |capabilities|
                      && forall i :: 0 <= i < |capabilities| ==> r.value[i] == RecordOf(c, capabilities[i].value)
  {
    hide Encode;
    var records := [];
    for i := 0 to |capabilities|
      invariant |records| == i
      invariant forall j :: 0 <= j < i ==> capabilities[j].Some? && records[j] == RecordOf(c, capabilities[j].value)
    {
      var metadata := CapabilityMetadata(c, capabilities[i]);
      if metadata.Error? {
        return Error(metadata.reason);
      }
      var d := capabilities[i].value;
      records := records + [Record(d.typ, d.id, Some(metadata.value))];
    }
    r := Ok(records);
  }
}
