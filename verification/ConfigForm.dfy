/** Validation of one config schema's admin form against the properties of its JSON schema. */
module ConfigForm {
  import opened Options

  /** A protobuf Value; a number is finite or one of NaN and the infinities. */
  datatype Value = NullValue | NumberValue(finite: bool) | StringValue | BoolValue(b: bool) | StructValue | ListValue

  datatype GoType = GoNil | GoBool | GoFloat64 | GoString | GoMap | GoSlice

  /** The dynamic type of `AsInterface`, which spells non-finite numbers out as strings. */
  function AsInterface(v: Value): GoType {
    match v
    case NullValue => GoNil
    case NumberValue(finite) => if finite then GoFloat64 else GoString
    case StringValue => GoString
    case BoolValue(_) => GoBool
    case StructValue => GoMap
    case ListValue => GoSlice
  }

  datatype Control = MultiSelect | Select | OtherControl

  /** A nil condition has the empty field name, so conditions are given by their field names. */
  datatype Field = Field(
    key: string, control: Control, dynamicOptions: bool, options: nat, defaultValue: Option<Value>,
    showWhen: seq<string>, exclusiveGroupField: string)

  datatype Section = Section(fieldKeys: seq<string>, showWhen: seq<string>)

  datatype Form = Form(fields: seq<Option<Field>>, sections: seq<Option<Section>>)

  datatype Schema = Schema(jsonSchema: string, adminForm: Option<Form>)

  /** What the code reads of a JSON schema; `properties` gives each property's type. */
  datatype Parsed = Parsed(typ: string, properties: map<string, string>)

  // ----- The form a schema may have

  predicate ControlFits(f: Field, typ: string) {
    && (f.control == MultiSelect ==> typ == "array")
    && (f.control == MultiSelect || f.control == Select ==> f.dynamicOptions || f.options > 0)
  }

  predicate DefaultFits(f: Field, typ: string) {
    f.defaultValue.Some? ==>
      var t := AsInterface(f.defaultValue.value);
      && (typ == "boolean" ==> t == GoBool)
      && (typ == "integer" || typ == "number" ==> t == GoFloat64)
      && (typ == "string" ==> t == GoString)
  }

  predicate FieldFits(p: Parsed, f: Field) {
    && f.key != ""
    && f.key in p.properties
    && ControlFits(f, p.properties[f.key])
    && DefaultFits(f, p.properties[f.key])
  }

  predicate Resolves(p: Parsed, reference: string) {
    reference != "" && reference in p.properties
  }

  predicate FieldResolves(p: Parsed, f: Field) {
    && (forall r <- f.showWhen :: Resolves(p, r))
    && (f.exclusiveGroupField != "" ==> f.exclusiveGroupField in p.properties)
  }

  function FormKeys(fields: seq<Option<Field>>): set<string> {
    set f <- fields | f.Some? :: f.value.key
  }

  predicate SectionResolves(p: Parsed, keys: set<string>, s: Section) {
    && (forall k <- s.fieldKeys :: k in keys)
    && (forall r <- s.showWhen :: Resolves(p, r))
  }

  predicate DistinctKeys(fields: seq<Option<Field>>) {
    forall i, j :: 0 <= i < j < |fields| && fields[i].Some? && fields[j].Some? ==>
      fields[i].value.key != fields[j].value.key
  }

  /** The forms that fit a schema. References are to JSON properties; sections name the form's own fields. */
  predicate ValidForm(p: Parsed, form: Form) {
    && p.typ == "object"
    && DistinctKeys(form.fields)
    && (forall f <- form.fields :: f.Some? ==> FieldFits(p, f.value) && FieldResolves(p, f.value))
    && (forall s <- form.sections :: s.Some? ==> SectionResolves(p, FormKeys(form.fields), s.value))
  }

  predicate ValidSchema(parse: string -> Option<Parsed>, schema: Option<Schema>) {
    schema.Some? && schema.value.adminForm.Some? ==>
      var parsed := parse(schema.value.jsonSchema);
      parsed.Some? && ValidForm(parsed.value, schema.value.adminForm.value)
  }

  // ----- What is refused, fault by fault

  /** A default value whose Go type is not the one its property asks for; a NaN is a string there. */
  predicate WrongDefault(v: Value, typ: string) {
    || (typ == "boolean" && !v.BoolValue?)
    || ((typ == "integer" || typ == "number") && v != NumberValue(true))
    || (typ == "string" && !v.StringValue? && v != NumberValue(false))
  }

  predicate FieldFault(p: Parsed, f: Field) {
    || f.key == "" || f.key !in p.properties
    || (f.control == MultiSelect && p.properties[f.key] != "array")
    || (f.control != OtherControl && !f.dynamicOptions && f.options == 0)
    || (f.defaultValue.Some? && WrongDefault(f.defaultValue.value, p.properties[f.key]))
    || (exists r <- f.showWhen :: r == "" || r !in p.properties)
    || (f.exclusiveGroupField != "" && f.exclusiveGroupField !in p.properties)
  }

  predicate SectionFault(p: Parsed, fields: seq<Option<Field>>, s: Section) {
    || (exists k <- s.fieldKeys :: forall f <- fields :: f.Some? ==> f.value.key != k)
    || (exists r <- s.showWhen :: r == "" || r !in p.properties)
  }

  /** A form is refused exactly for one of these faults; nil fields and sections are none. */
  lemma RefusedForms(p: Parsed, form: Form)
    ensures !ValidForm(p, form) <==>
            || p.typ != "object"
            || (exists f <- form.fields :: f.Some? && FieldFault(p, f.value))
            || (exists i, j :: 0 <= i < j < |form.fields| && form.fields[i].Some? && form.fields[j].Some?
                               && form.fields[i].value.key == form.fields[j].value.key)
            || (exists s <- form.sections :: s.Some? && SectionFault(p, form.fields, s.value))
  {
    forall f: Field ensures FieldFault(p, f) <==> !(FieldFits(p, f) && FieldResolves(p, f)) {
      FaultyField(p, f);
    }
    forall s: Section ensures SectionFault(p, form.fields, s) <==> !SectionResolves(p, FormKeys(form.fields), s) {
      FaultySection(p, form.fields, s);
    }
    hide FieldFault, FieldFits, FieldResolves, SectionFault, SectionResolves;
  }

  /** Only schemas with a form can be refused: for the form's faults, or a JSON schema that does not decode. */
  lemma RefusedSchemas(parse: string -> Option<Parsed>, schema: Option<Schema>)
    ensures !ValidSchema(parse, schema) <==>
            exists s, form :: schema == Some(s) && s.adminForm == Some(form)
              && (parse(s.jsonSchema) == None || !ValidForm(parse(s.jsonSchema).value, form))
  {
    if schema.Some? && schema.value.adminForm.Some? {
      assert schema == Some(schema.value) && schema.value.adminForm == Some(schema.value.adminForm.value);
    }
  }

  lemma FaultyField(p: Parsed, f: Field)
    ensures FieldFault(p, f) <==> !(FieldFits(p, f) && FieldResolves(p, f))
  {
    assert (exists r <- f.showWhen :: r == "" || r !in p.properties) <==> !forall r <- f.showWhen :: Resolves(p, r);
  }

  lemma FaultySection(p: Parsed, fields: seq<Option<Field>>, s: Section)
    ensures SectionFault(p, fields, s) <==> !SectionResolves(p, FormKeys(fields), s)
  {
    assert (exists r <- s.showWhen :: r == "" || r !in p.properties) <==> !forall r <- s.showWhen :: Resolves(p, r);
  }

  // ----- Order does not matter

  lemma CountTwice<T>(s: seq<T>, i: nat, j: nat)
    requires i < j < |s| && s[i] == s[j]
    ensures multiset(s)[s[i]] >= 2
  {
    assert s == s[..j] + [s[j]] + s[j + 1..];
    assert s[i] in s[..j];
    assert multiset(s) == multiset(s[..j]) + multiset([s[j]]) + multiset(s[j + 1..]);
  }

  lemma {:induction false} CountedTwice<T>(s: seq<T>, x: T) returns (i: nat, j: nat)
    requires multiset(s)[x] >= 2
    ensures i < j < |s| && s[i] == s[j] == x
  {
    var k := |s| - 1;
    assert s == s[..k] + [s[k]];
    if s[k] == x {
      j := k;
      assert x in multiset(s[..k]);
      i :| 0 <= i < k && s[i] == x;
    } else {
      i, j := CountedTwice(s[..k], x);
    }
  }

  lemma DistinctKeysUnderPermutation(fields: seq<Option<Field>>, other: seq<Option<Field>>)
    requires multiset(fields) == multiset(other) && DistinctKeys(other)
    ensures DistinctKeys(fields)
  {
    forall i, j | 0 <= i < j < |fields| && fields[i].Some? && fields[j].Some?
      ensures fields[i].value.key != fields[j].value.key
    {
      if fields[i] == fields[j] {
        CountTwice(fields, i, j);
        var p, q := CountedTwice(other, fields[i]);
        assert false;
      } else {
        assert fields[i] in multiset(fields) && fields[j] in multiset(fields);
        var p :| 0 <= p < |other| && other[p] == fields[i];
        var q :| 0 <= q < |other| && other[q] == fields[j];
      }
    }
  }

  lemma SameElements<T>(a: seq<T>, b: seq<T>)
    requires multiset(a) == multiset(b)
    ensures forall x <- a :: x in b
    ensures forall x <- b :: x in a
  {
    forall x <- a ensures x in b { assert x in multiset(a); }
    forall x <- b ensures x in a { assert x in multiset(b); }
  }

  lemma ValidUnderPermutation(p: Parsed, form: Form, other: Form)
    requires multiset(form.fields) == multiset(other.fields)
    requires multiset(form.sections) == multiset(other.sections)
    requires ValidForm(p, other)
    ensures ValidForm(p, form)
  {
    DistinctKeysUnderPermutation(form.fields, other.fields);
    SameElements(form.fields, other.fields);
    SameElements(form.sections, other.sections);
    assert FormKeys(form.fields) == FormKeys(other.fields);
  }

  /** Acceptance does not depend on the order of fields or of sections. */
  lemma OrderFree(p: Parsed, form: Form, other: Form)
    requires multiset(form.fields) == multiset(other.fields)
    requires multiset(form.sections) == multiset(other.sections)
    ensures ValidForm(p, form) <==> ValidForm(p, other)
  {
    if ValidForm(p, other) {
      ValidUnderPermutation(p, form, other);
    }
    if ValidForm(p, form) {
      ValidUnderPermutation(p, other, form);
    }
  }

  // ----- The source's own form

  /** The first pass over one field; later passes rely on every key being a property. */
  method CheckField(p: Parsed, f: Field) returns (ok: bool)
    ensures ok == FieldFits(p, f)
  {
    if f.key == "" || f.key !in p.properties {
      return false;
    }
    var typ := p.properties[f.key];
    match f.control {
      case MultiSelect =>
        if typ != "array" || (!f.dynamicOptions && f.options == 0) {
          return false;
        }
      case Select =>
        if !f.dynamicOptions && f.options == 0 {
          return false;
        }
      case OtherControl =>
    }
    if f.defaultValue.Some? {
      var t := AsInterface(f.defaultValue.value);
      if typ == "boolean" {
        return t == GoBool;
      } else if typ == "integer" || typ == "number" {
        return t == GoFloat64;
      } else if typ == "string" {
        return t == GoString;
      }
    }
    ok := true;
  }

  /** `hasReference`: a field of the form or a property; once pass one is over, a property. */
  method CheckReferences(p: Parsed, seen: set<string>, references: seq<string>) returns (ok: bool)
    requires forall k <- seen :: k in p.properties
    ensures ok <==> forall r <- references :: Resolves(p, r)
  {
    for i := 0 to |references|
      invariant forall j :: 0 <= j < i ==> Resolves(p, references[j])
    {
      if references[i] == "" || !(references[i] in seen || references[i] in p.properties) {
        assert !Resolves(p, references[i]);
        return false;
      }
    }
    ok := true;
  }

  method CheckFieldReferences(p: Parsed, seen: set<string>, f: Field) returns (ok: bool)
    requires forall k <- seen :: k in p.properties
    ensures ok == FieldResolves(p, f)
  {
    ok := CheckReferences(p, seen, f.showWhen);
    if ok && f.exclusiveGroupField != "" {
      ok := f.exclusiveGroupField in seen || f.exclusiveGroupField in p.properties;
    }
  }

  method CheckSection(p: Parsed, seen: set<string>, s: Section) returns (ok: bool)
    requires forall k <- seen :: k in p.properties
    ensures ok == SectionResolves(p, seen, s)
  {
    for i := 0 to |s.fieldKeys|
      invariant forall j :: 0 <= j < i ==> s.fieldKeys[j] in seen
    {
      if s.fieldKeys[i] !in seen {
        return false;
      }
    }
    ok := CheckReferences(p, seen, s.showWhen);
  }

  /** Pass one: each field by itself, and no key twice. */
  method CheckFields(p: Parsed, fields: seq<Option<Field>>) returns (ok: bool, seen: set<string>)
    ensures ok <==> DistinctKeys(fields) && forall f <- fields :: f.Some? ==> FieldFits(p, f.value)
    ensures ok ==> seen == FormKeys(fields)
  {
    seen := {};
    for i := 0 to |fields|
      invariant DistinctKeys(fields[..i])
      invariant forall j :: 0 <= j < i && fields[j].Some? ==> FieldFits(p, fields[j].value)
      invariant seen == FormKeys(fields[..i])
    {
      KeysOfOneMore(fields, i);
      if fields[i].Some? {
        var f := fields[i].value;
        assert fields[i] in fields;
        if f.key in seen {
          return false, seen;
        }
        var fits := CheckField(p, f);
        if !fits {
          return false, seen;
        }
        seen := seen + {f.key};
      }
    }
    assert fields[..|fields|] == fields;
    ok := true;
  }

  lemma KeysOfOneMore(fields: seq<Option<Field>>, i: nat)
    requires i < |fields|
    ensures FormKeys(fields[..i + 1]) ==
            FormKeys(fields[..i]) + if fields[i].Some? then {fields[i].value.key} else {}
    ensures DistinctKeys(fields[..i]) ==>
              (DistinctKeys(fields[..i + 1])
               <==> fields[i].Some? ==> fields[i].value.key !in FormKeys(fields[..i]))
    ensures DistinctKeys(fields) ==> DistinctKeys(fields[..i + 1])
  {
    var more, less := fields[..i + 1], fields[..i];
    assert more == less + [fields[i]];
    if fields[i].Some? && fields[i].value.key in FormKeys(less) {
      var f :| f in less && f.Some? && f.value.key == fields[i].value.key;
      var j :| 0 <= j < i && less[j] == f;
      assert more[j].value.key == more[i].value.key;
    }
    forall j | 0 <= j < i && fields[j].Some? ensures fields[j].value.key in FormKeys(less) {
      assert less[j] in less;
    }
  }

  method ValidateConfigSchema(parse: string -> Option<Parsed>, schema: Option<Schema>) returns (ok: bool)
    ensures ok == ValidSchema(parse, schema)
  {
    if schema.None? || schema.value.adminForm.None? {
      return true;
    }
    var form := schema.value.adminForm.value;
    var parsed := parse(schema.value.jsonSchema);
    if parsed.None? {
      return false;
    }
    ok := ValidateForm(parsed.value, form);
  }

  method ValidateForm(p: Parsed, form: Form) returns (ok: bool)
    ensures ok == ValidForm(p, form)
  {
    if p.typ != "object" {
      return false;
    }
    var seen;
    ok, seen := CheckFields(p, form.fields);
    if !ok {
      return;
    }
    forall k <- seen ensures k in p.properties {
      var f :| f in form.fields && f.Some? && f.value.key == k;
      assert FieldFits(p, f.value);
    }
    for i := 0 to |form.fields|
      invariant forall j :: 0 <= j < i && form.fields[j].Some? ==> FieldResolves(p, form.fields[j].value)
    {
      if form.fields[i].Some? {
        ok := CheckFieldReferences(p, seen, form.fields[i].value);
        if !ok {
          assert form.fields[i] in form.fields;
          return;
        }
      }
    }
    for i := 0 to |form.sections|
      invariant forall j :: 0 <= j < i && form.sections[j].Some? ==> SectionResolves(p, seen, form.sections[j].value)
    {
      if form.sections[i].Some? {
        ok := CheckSection(p, seen, form.sections[i].value);
        if !ok {
          assert form.sections[i] in form.sections;
          return;
        }
      }
    }
    ok := true;
  }
}
