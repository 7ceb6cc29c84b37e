/**
 * The schema engine behind `BaseSchema`: each schema is a declared table of
 * fields (required or not, a `missing` default, an optional `OneOf` choice
 * set) bound to a construction target (`Meta.decoding_class`). Loading is
 * strict: if any field fails, the whole load fails with every failing
 * field's error and no object is built.
 */
module SchemaEngine {
  import opened Common
  import AddressCodec
  import HexCodec

  /** A value as it arrives in (or leaves as) JSON. */
  datatype Raw =
    | Null
    | Text(s: string)
    | Integer(n: int)
    | Real(x: real)
    | Bool(v: bool)
    | List(items: seq<Raw>)
    | Object(entries: map<string, Raw>)

  /** A decoded value: Nothing is Python's None, Bytes a 20-byte address. */
  datatype Value = Nothing | Bytes(b: seq<Byte>) | Int(n: int) | Str(s: string) | Dec(x: real)

  /** The field classes used: AddressField, fields.Integer, fields.String, fields.Decimal. */
  datatype Kind = AddressKind | IntegerKind | StringKind | DecimalKind

  /**
   * One declared field. `missing` is the raw value substituted when the key
   * is absent (marshmallow's `missing=`), `dumpDefault` the value written
   * when the object lacks the attribute (`default=`), `choices` a `OneOf`.
   */
  datatype FieldSpec = FieldSpec(
    name: string,
    kind: Kind,
    required: bool := false,
    missing: Option<Raw> := None,
    dumpDefault: Option<Raw> := None,
    choices: Option<seq<string>> := None)

  /** `Meta.decoding_class`: `dict` or one of the API object classes. */
  datatype Target = Dict | Token | PartnersPerToken | Channel

  datatype Schema = Schema(fields: seq<FieldSpec>, target: Target)

  /** What `decoding_class(**data)` produces: the class and its keyword arguments. */
  datatype Record = Record(cls: Target, attrs: map<string, Value>)

  datatype FieldError =
    | Required                                     // "Missing data for required field."
    | MayNotBeNull                                 // "Field may not be null."
    | NotOneOf                                     // the OneOf validator
    | BadAddress(reason: AddressCodec.AddressError)
    | NotText                                      // a number, boolean or object handed to AddressField
    | Invalid(message: string)                     // a primitive field's own coercion error

  type Payload = map<string, Raw>
  type Errors = map<string, FieldError>

  /** marshmallow's coercion of a raw value by a primitive field class, not modelled here. */
  type Primitives = (Kind, Raw) -> Result<Value, string>

  /** marshmallow's formatting of a value by a primitive field class, not modelled here. */
  type Formatter = (Kind, Value) -> Raw

  /** No two declared fields share a name, as for attributes of one Python class. */
  predicate UniqueNames(fs: seq<FieldSpec>) {
    forall i, j :: 0 <= i < j < |fs| ==> fs[i].name != fs[j].name
  }

  function Names(fs: seq<FieldSpec>): set<string> {
    set i | 0 <= i < |fs| :: fs[i].name
  }

  /** marshmallow 2 lets a field take None exactly when its `missing` is None. */
  predicate AllowNone(f: FieldSpec) {
    f.missing == Some(Null)
  }

  /** The value a field sees: the payload's, else its `missing` default, else nothing. */
  function RawInput(f: FieldSpec, payload: Payload): Option<Raw> {
    if f.name in payload then Some(payload[f.name]) else f.missing
  }

  datatype FieldOutcome = Absent | Loaded(value: Value) | Failed(error: FieldError)

  /**
   * Decoding by the field class: `AddressField._deserialize`, or primitive
   * coercion. An address field slices its input: a list's slice never equals
   * `'0x'`, so a list is a missing prefix; a value that cannot be sliced is
   * NotText.
   */
  function DecodeKind(k: Kind, raw: Raw, prim: Primitives): (r: Result<Value, FieldError>)
    ensures k == AddressKind && r.Success? ==>
      raw.Text? && r.value.Bytes? && AddressCodec.Deserialize(raw.s) == Success(r.value.b)
    ensures k == AddressKind && raw.Text? ==>
      (r.Failure? <==> AddressCodec.Deserialize(raw.s).Failure?)
    ensures k == AddressKind && raw.Text? && AddressCodec.Deserialize(raw.s).Failure? ==>
      r == Failure(BadAddress(AddressCodec.Deserialize(raw.s).error))
    ensures k == AddressKind && raw.List? ==> r == Failure(BadAddress(AddressCodec.MissingPrefix))
  {
    if k == AddressKind then
      match raw
      case Text(s) =>
        (match AddressCodec.Deserialize(s)
         case Success(b) => Success(Bytes(b))
         case Failure(e) => Failure(BadAddress(e)))
      case List(_) => Failure(BadAddress(AddressCodec.MissingPrefix))
      case _ => Failure(NotText)
    else
      match prim(k, raw)
      case Success(v) => Success(v)
      case Failure(m) => Failure(Invalid(m))
  }

  /** `Field.deserialize`: the None check, the field class's decoding, then validators. */
  function DeserializeField(f: FieldSpec, raw: Raw, prim: Primitives): (o: FieldOutcome)
    ensures raw == Null ==> o == (if AllowNone(f) then Loaded(Nothing) else Failed(MayNotBeNull))
    ensures o.Loaded? && o.value != Nothing && f.choices.Some? ==>
      o.value.Str? && o.value.s in f.choices.value
    ensures !o.Absent?
    ensures f.kind == AddressKind && o.Loaded? ==>
      (raw == Null && AllowNone(f) && o.value == Nothing) ||
      (raw.Text? && o.value.Bytes? && AddressCodec.Deserialize(raw.s) == Success(o.value.b))
    ensures f.kind == AddressKind && raw.Text? && AddressCodec.Deserialize(raw.s).Failure? ==>
      o == Failed(BadAddress(AddressCodec.Deserialize(raw.s).error))
    ensures raw != Null && f.choices.Some? && DecodeKind(f.kind, raw, prim).Success? ==>
      var v := DecodeKind(f.kind, raw, prim).value;
      (o.Loaded? <==> v.Str? && v.s in f.choices.value)
    ensures raw != Null && f.choices.None? ==> (o.Loaded? <==> DecodeKind(f.kind, raw, prim).Success?)
  {
    if raw == Null then
      if AllowNone(f) then Loaded(Nothing) else Failed(MayNotBeNull)
    else
      match DecodeKind(f.kind, raw, prim)
      case Failure(e) => Failed(e)
      case Success(v) =>
        if f.choices.Some? && !(v.Str? && v.s in f.choices.value) then Failed(NotOneOf)
        else Loaded(v)
  }

  /** The unmarshalling of one declared field from a payload. */
  function LoadField(f: FieldSpec, payload: Payload, prim: Primitives): (o: FieldOutcome)
    ensures o.Absent? <==> f.name !in payload && f.missing.None? && !f.required
    ensures o == Failed(Required) <==> f.name !in payload && f.missing.None? && f.required
  {
    match RawInput(f, payload)
    case None => if f.required then Failed(Required) else Absent
    case Some(raw) => DeserializeField(f, raw, prim)
  }

  datatype Outcome = Outcome(values: map<string, Value>, errors: Errors)

  /** Every declared field in turn; undeclared payload keys are not looked at. */
  function LoadFields(fs: seq<FieldSpec>, payload: Payload, prim: Primitives): (o: Outcome)
    ensures o.values.Keys + o.errors.Keys <= Names(fs)
  {
    if fs == [] then Outcome(map[], map[])
    else
      var acc := LoadFields(fs[1..], payload, prim);
      NamesTail(fs);
      match LoadField(fs[0], payload, prim)
      case Absent => acc
      case Loaded(v) => acc.(values := acc.values[fs[0].name := v])
      case Failed(e) => acc.(errors := acc.errors[fs[0].name := e])
  }

  /** The field outcome of declared field `f`, read back from the accumulated maps. */
  predicate Reports(o: Outcome, f: FieldSpec, fo: FieldOutcome) {
    && (f.name in o.values <==> fo.Loaded?)
    && (f.name in o.errors <==> fo.Failed?)
    && (fo.Loaded? ==> o.values[f.name] == fo.value)
    && (fo.Failed? ==> o.errors[f.name] == fo.error)
  }

  /** Each declared field's outcome ends up, unchanged, under its own name. */
  lemma {:induction false} LoadFieldsReports(fs: seq<FieldSpec>, payload: Payload, prim: Primitives)
    requires UniqueNames(fs)
    ensures forall i :: 0 <= i < |fs| ==>
      Reports(LoadFields(fs, payload, prim), fs[i], LoadField(fs[i], payload, prim))
  {
    if fs != [] {
      var rest := fs[1..];
      LoadFieldsReports(rest, payload, prim);
      forall i | 0 <= i < |fs|
        ensures Reports(LoadFields(fs, payload, prim), fs[i], LoadField(fs[i], payload, prim))
      {
        if i == 0 {
          LoadFieldsHead(fs, payload, prim);
        } else {
          assert fs[i] == rest[i - 1];
          LoadFieldsFrame(fs, payload, prim, fs[i].name);
        }
      }
    }
  }

  /** The first declared field's outcome is recorded under its name. */
  lemma LoadFieldsHead(fs: seq<FieldSpec>, payload: Payload, prim: Primitives)
    requires fs != [] && fs[0].name !in Names(fs[1..])
    ensures Reports(LoadFields(fs, payload, prim), fs[0], LoadField(fs[0], payload, prim))
  {
    var acc := LoadFields(fs[1..], payload, prim);
    assert fs[0].name !in acc.values && fs[0].name !in acc.errors;
  }

  /** Loading the first declared field leaves every other name's entries alone. */
  lemma LoadFieldsFrame(fs: seq<FieldSpec>, payload: Payload, prim: Primitives, n: string)
    requires fs != [] && n != fs[0].name
    ensures var o, acc := LoadFields(fs, payload, prim), LoadFields(fs[1..], payload, prim);
      && (n in o.values <==> n in acc.values) && (n in o.errors <==> n in acc.errors)
      && (n in acc.values ==> o.values[n] == acc.values[n])
      && (n in acc.errors ==> o.errors[n] == acc.errors[n])
  {
  }

  /** The load fails exactly when some declared field fails. */
  lemma {:induction false} LoadFieldsErrorFree(fs: seq<FieldSpec>, payload: Payload, prim: Primitives)
    ensures LoadFields(fs, payload, prim).errors == map[] <==>
      forall i :: 0 <= i < |fs| ==> !LoadField(fs[i], payload, prim).Failed?
  {
    if fs != [] {
      var rest := fs[1..];
      LoadFieldsErrorFree(rest, payload, prim);
      LoadFieldsErrorsStep(fs, payload, prim);
      if !LoadField(fs[0], payload, prim).Failed? {
        assert forall i :: 1 <= i < |fs| ==> fs[i] == rest[i - 1];
      }
    }
  }

  /** Loading the first declared field adds an error exactly when that field fails. */
  lemma LoadFieldsErrorsStep(fs: seq<FieldSpec>, payload: Payload, prim: Primitives)
    requires fs != []
    ensures var o, acc := LoadFields(fs, payload, prim), LoadFields(fs[1..], payload, prim);
      if LoadField(fs[0], payload, prim).Failed? then fs[0].name in o.errors else o.errors == acc.errors
  {
  }

  /**
   * `Schema.load` with `strict = True`, before `make_object`: the decoded
   * field map, or the error of every failing field.
   */
  function Load(s: Schema, payload: Payload, prim: Primitives): (r: Result<map<string, Value>, Errors>)
    ensures r.Success? <==> forall i :: 0 <= i < |s.fields| ==> !LoadField(s.fields[i], payload, prim).Failed?
    ensures r.Success? ==> r.value.Keys <= Names(s.fields)
    ensures r.Failure? ==> r.error != map[] && r.error.Keys <= Names(s.fields)
  {
    LoadFieldsErrorFree(s.fields, payload, prim);
    var o := LoadFields(s.fields, payload, prim);
    if o.errors == map[] then Success(o.values) else Failure(o.errors)
  }

  /** A successful load holds exactly the loaded fields, each with its decoded value. */
  lemma LoadSucceeds(s: Schema, payload: Payload, prim: Primitives, i: nat)
    requires UniqueNames(s.fields) && i < |s.fields|
    requires Load(s, payload, prim).Success?
    ensures var f := s.fields[i]; var m := Load(s, payload, prim).value;
      match LoadField(f, payload, prim)
      case Loaded(v) => f.name in m && m[f.name] == v
      case Absent => f.name !in m
      case Failed(_) => false
  {
    LoadFieldsReports(s.fields, payload, prim);
  }

  /** A successful load holds a present address text as its decoded 20 bytes. */
  lemma PresentAddressField(s: Schema, payload: Payload, prim: Primitives, i: nat)
    requires UniqueNames(s.fields) && i < |s.fields|
    requires Load(s, payload, prim).Success?
    requires s.fields[i].kind == AddressKind && s.fields[i].name in payload && payload[s.fields[i].name].Text?
    ensures var f := s.fields[i]; var m := Load(s, payload, prim).value;
      && AddressCodec.Deserialize(payload[f.name].s).Success?
      && f.name in m && m[f.name] == Bytes(AddressCodec.Deserialize(payload[f.name].s).value)
  {
    LoadSucceeds(s, payload, prim, i);
  }

  /** A field absent from a successful load's payload holds its `missing` default, decoded. */
  lemma AbsentFieldDefault(s: Schema, payload: Payload, prim: Primitives, i: nat)
    requires UniqueNames(s.fields) && i < |s.fields|
    requires Load(s, payload, prim).Success?
    requires s.fields[i].name !in payload && s.fields[i].missing.Some?
    ensures var f := s.fields[i]; var m := Load(s, payload, prim).value;
      f.name in m && DeserializeField(f, f.missing.value, prim) == Loaded(m[f.name])
  {
    LoadSucceeds(s, payload, prim, i);
  }

  /**
   * A `OneOf` on a string field: a present text outside the choices fails the
   * load with NotOneOf under that field, and a successful load holds a choice.
   */
  lemma ChoiceEnforced(s: Schema, payload: Payload, prim: Primitives, i: nat)
    requires UniqueNames(s.fields) && i < |s.fields|
    requires s.fields[i].kind == StringKind && s.fields[i].choices.Some?
    requires s.fields[i].name in payload && payload[s.fields[i].name].Text?
    requires prim(StringKind, payload[s.fields[i].name]) == Success(Str(payload[s.fields[i].name].s))
    ensures var f := s.fields[i]; var text := payload[f.name].s; var r := Load(s, payload, prim);
      && (text !in f.choices.value ==> r.Failure? && f.name in r.error && r.error[f.name] == NotOneOf)
      && (r.Success? ==> text in f.choices.value && f.name in r.value && r.value[f.name] == Str(text))
    ensures var f := s.fields[i]; var text := payload[f.name].s; var r := Load(s, payload, prim);
      && LoadField(f, payload, prim) == (if text in f.choices.value then Loaded(Str(text)) else Failed(NotOneOf))
      && (text in f.choices.value ==> (r.Failure? ==> f.name !in r.error))
  {
    var f := s.fields[i];
    if payload[f.name].s !in f.choices.value {
      LoadFails(s, payload, prim, i);
    } else {
      FieldNotReported(s, payload, prim, i);
    }
    if Load(s, payload, prim).Success? {
      LoadSucceeds(s, payload, prim, i);
    }
  }

  /** A field that does not fail contributes no error to a failed load. */
  lemma FieldNotReported(s: Schema, payload: Payload, prim: Primitives, i: nat)
    requires UniqueNames(s.fields) && i < |s.fields|
    requires !LoadField(s.fields[i], payload, prim).Failed?
    ensures var r := Load(s, payload, prim); r.Failure? ==> s.fields[i].name !in r.error
  {
    LoadFieldsReports(s.fields, payload, prim);
  }

  /** A required field absent from the payload fails the load with Required under its name. */
  lemma RequiredEnforced(s: Schema, payload: Payload, prim: Primitives, i: nat)
    requires UniqueNames(s.fields) && i < |s.fields|
    requires s.fields[i].required && s.fields[i].missing.None? && s.fields[i].name !in payload
    ensures var r := Load(s, payload, prim);
      r.Failure? && s.fields[i].name in r.error && r.error[s.fields[i].name] == Required
  {
    LoadFails(s, payload, prim, i);
  }

  /** A failing field makes the whole load fail, with that field's error under its name. */
  lemma LoadFails(s: Schema, payload: Payload, prim: Primitives, i: nat)
    requires UniqueNames(s.fields) && i < |s.fields|
    requires LoadField(s.fields[i], payload, prim).Failed?
    ensures Load(s, payload, prim).Failure? && s.fields[i].name in Load(s, payload, prim).error
    ensures Load(s, payload, prim).error[s.fields[i].name] == LoadField(s.fields[i], payload, prim).error
  {
    LoadFieldsReports(s.fields, payload, prim);
  }

  /** `BaseSchema.make_object`: `decoding_class(**data)`. */
  function MakeObject(target: Target, data: map<string, Value>): Record {
    Record(target, data)
  }

  /**
   * `schema.load(data).data`: the object of the bound class, built only when
   * no declared field fails, from declared fields only.
   */
  function LoadObject(s: Schema, payload: Payload, prim: Primitives): (r: Result<Record, Errors>)
    ensures r.Success? <==> forall i :: 0 <= i < |s.fields| ==> !LoadField(s.fields[i], payload, prim).Failed?
    ensures r.Success? ==> r.value.cls == s.target && r.value.attrs.Keys <= Names(s.fields)
    ensures r.Failure? ==> r.error != map[] && r.error.Keys <= Names(s.fields)
  {
    match Load(s, payload, prim)
    case Success(data) => Success(MakeObject(s.target, data))
    case Failure(e) => Failure(e)
  }

  /**
   * The keyword arguments `make_object` passes are the declared fields'
   * outcomes: each loaded value under its name, skipped fields left out,
   * and a failing field's error under its name when the load fails.
   */
  lemma LoadObjectFields(s: Schema, payload: Payload, prim: Primitives, i: nat)
    requires UniqueNames(s.fields) && i < |s.fields|
    ensures var f := s.fields[i]; var r := LoadObject(s, payload, prim);
      match LoadField(f, payload, prim)
      case Loaded(v) => r.Success? ==> f.name in r.value.attrs && r.value.attrs[f.name] == v
      case Absent => r.Success? ==> f.name !in r.value.attrs
      case Failed(e) => r.Failure? && f.name in r.error && r.error[f.name] == e
  {
    if LoadField(s.fields[i], payload, prim).Failed? {
      LoadFails(s, payload, prim, i);
    } else if Load(s, payload, prim).Success? {
      LoadSucceeds(s, payload, prim, i);
    }
  }

  /** A present address text the codec rejects fails the load with the codec's label under its name. */
  lemma AddressLabelEnforced(s: Schema, payload: Payload, prim: Primitives, i: nat)
    requires UniqueNames(s.fields) && i < |s.fields|
    requires s.fields[i].kind == AddressKind && s.fields[i].name in payload && payload[s.fields[i].name].Text?
    requires AddressCodec.Deserialize(payload[s.fields[i].name].s).Failure?
    ensures var f := s.fields[i]; var r := Load(s, payload, prim);
      r.Failure? && f.name in r.error
      && r.error[f.name] == BadAddress(AddressCodec.Deserialize(payload[f.name].s).error)
  {
    LoadFails(s, payload, prim, i);
  }

  /** Two payloads agree on the given names: same presence, same raw value. */
  predicate AgreeOn(p: Payload, q: Payload, names: set<string>) {
    forall n :: n in names ==> (n in p <==> n in q) && (n in p ==> p[n] == q[n])
  }

  lemma {:induction false} LoadFieldsUndeclaredIgnored(fs: seq<FieldSpec>, p: Payload, q: Payload, prim: Primitives)
    requires AgreeOn(p, q, Names(fs))
    ensures LoadFields(fs, p, prim) == LoadFields(fs, q, prim)
  {
    if fs != [] {
      NamesTail(fs);
      LoadFieldsUndeclaredIgnored(fs[1..], p, q, prim);
      LoadFieldAgrees(fs[0], p, q, prim);
    }
  }

  lemma NamesTail(fs: seq<FieldSpec>)
    requires fs != []
    ensures fs[0].name in Names(fs) && Names(fs[1..]) <= Names(fs)
  {
    forall n | n in Names(fs[1..]) ensures n in Names(fs) {
      var j :| 0 <= j < |fs| - 1 && fs[1..][j].name == n;
      assert fs[j + 1].name == n;
    }
  }

  lemma LoadFieldAgrees(f: FieldSpec, p: Payload, q: Payload, prim: Primitives)
    requires (f.name in p <==> f.name in q) && (f.name in p ==> p[f.name] == q[f.name])
    ensures LoadField(f, p, prim) == LoadField(f, q, prim)
  {
    assert RawInput(f, p) == RawInput(f, q);
  }

  /**
   * Keys no field declares are never looked at: payloads that agree on the
   * declared names load alike.
   */
  lemma UndeclaredIgnored(s: Schema, p: Payload, q: Payload, prim: Primitives)
    requires AgreeOn(p, q, Names(s.fields))
    ensures Load(s, p, prim) == Load(s, q, prim)
  {
    LoadFieldsUndeclaredIgnored(s.fields, p, q, prim);
  }

  /** `Field._serialize`: addresses with `address_encoder`, other values by their field class. */
  function SerializeField(k: Kind, v: Value, out: Formatter): (r: Raw)
    ensures k == AddressKind && v.Bytes? ==> r.Text? && AddressCodec.Prefixed(r.s)
    ensures k == AddressKind && v.Bytes? && |v.b| == 20 ==>
      AddressCodec.Deserialize(r.s) == Success(v.b)
  {
    if k == AddressKind && v.Bytes? then Text(AddressCodec.Serialize(v.b)) else out(k, v)
  }

  /** `Field.serialize` for one attribute: its encoding, else the `default=` value, else skipped. */
  function DumpField(f: FieldSpec, attrs: map<string, Value>, out: Formatter): Option<Raw> {
    if f.name in attrs then Some(SerializeField(f.kind, attrs[f.name], out)) else f.dumpDefault
  }

  function DumpFields(fs: seq<FieldSpec>, attrs: map<string, Value>, out: Formatter): (m: map<string, Raw>)
    ensures m.Keys <= Names(fs)
  {
    if fs == [] then map[]
    else
      var acc := DumpFields(fs[1..], attrs, out);
      NamesTail(fs);
      match DumpField(fs[0], attrs, out)
      case None => acc
      case Some(r) => acc[fs[0].name := r]
  }

  /** Each declared field's dump ends up under its own name, and nothing else. */
  lemma {:induction false} DumpFieldsReports(fs: seq<FieldSpec>, attrs: map<string, Value>, out: Formatter)
    requires UniqueNames(fs)
    ensures forall i :: 0 <= i < |fs| ==>
      var m := DumpFields(fs, attrs, out);
      match DumpField(fs[i], attrs, out)
      case None => fs[i].name !in m
      case Some(r) => fs[i].name in m && m[fs[i].name] == r
  {
    if fs != [] {
      var rest := fs[1..];
      DumpFieldsReports(rest, attrs, out);
      forall i | 1 <= i < |fs| ensures fs[i] == rest[i - 1] && fs[i].name != fs[0].name { }
    }
  }

  /** `Schema.dump(obj).data`: the declared fields in their external form. */
  function Dump(s: Schema, obj: Record, out: Formatter): (m: map<string, Raw>)
    ensures m.Keys <= Names(s.fields)
  {
    DumpFields(s.fields, obj.attrs, out)
  }

  /**
   * Loading then dumping an address field gives back its text, lower-cased:
   * the body codec normalises case and nothing else.
   */
  lemma AddressFieldRoundTrip(f: FieldSpec, payload: Payload, prim: Primitives, attrs: map<string, Value>, out: Formatter)
    requires f.kind == AddressKind && f.name in payload && payload[f.name].Text?
    requires LoadField(f, payload, prim).Loaded?
    requires attrs == map[f.name := LoadField(f, payload, prim).value]
    ensures DumpField(f, attrs, out) == Some(Text(HexCodec.LowerAscii(payload[f.name].s)))
  {
    var s := payload[f.name].s;
    assert s != [] by { assert AddressCodec.Deserialize(s).Success?; }
    AddressCodec.DeserializeSerialize(s);
  }
}
