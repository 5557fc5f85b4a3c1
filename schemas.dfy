/** The part of the zod library that the request validators use: JSON-like
    request values, schema values built from `z.string()`, `z.boolean()`,
    `z.array(...)`, `z.object({...})`, `.optional()`, `.min`, `.max`,
    `.length`, `.nonempty()`, and the object combinators `.required()`,
    `.pick(...)` and `.omit(...)`; and `Accepts`, which says whether a
    schema's `parse` succeeds on a value. */
module Schemas {
  import opened Common

  /** A parsed request part (body, query or params): what `express.json()`
      and Express's query parser produce. */
  datatype Json =
    | JString(s: string)
    | JBool(b: bool)
    | JNumber(n: int)
    | JNull
    | JArray(items: seq<Json>)
    | JObject(fields: map<string, Json>)

  /** The `.min(n)`, `.max(n)` and `.length(n)` checks chained onto a
      string or array schema, on a string's length or an array's size;
      `.nonempty()` on an array is `.min(1)`. */
  datatype Bounds = Bounds(min: Option<nat>, max: Option<nat>, length: Option<nat>)

  const NoBounds := Bounds(None, None, None)

  datatype Schema =
    | SString(bounds: Bounds)              // z.string() with its length checks
    | SEmail                                   // z.string().email()
    | SBoolean                                 // z.boolean()
    | SNativeEnum                              // z.nativeEnum(PostType)
    | SCoerceDate                              // z.coerce.date()
    | SArray(element: Schema, bounds: Bounds)
    | SObject(fields: seq<Field>)              // z.object({...})
    | SOptional(inner: Schema)                 // .optional()

  datatype Field = Field(key: string, schema: Schema)

  /** What the model leaves to the library: zod's e-mail format, the values
      of the `PostType` enumeration, and whether `new Date(value)` is a
      valid date. */
  datatype Env = Env(isEmail: string -> bool, postTypes: set<string>, isDate: Json -> bool)

  predicate WithinBounds(bounds: Bounds, size: nat) {
    && (bounds.min.None? || size >= bounds.min.value)
    && (bounds.max.None? || size <= bounds.max.value)
    && (bounds.length.None? || size == bounds.length.value)
  }

  /** The value stored under `key` in an object; `None` is `undefined`. */
  function Get(v: Json, key: string): Option<Json> {
    if v.JObject? && key in v.fields then Some(v.fields[key]) else None
  }

  /** Whether `schema.parse` succeeds on `v` (`None` is `undefined`). An
      object schema accepts any object whose declared keys hold accepted
      values; keys it does not declare are stripped, not refused. */
  predicate Accepts(env: Env, s: Schema, v: Option<Json>)
    decreases s
  {
    match s
    case SOptional(inner) => v.None? || Accepts(env, inner, v)
    case SString(bounds) => v.Some? && v.value.JString? && WithinBounds(bounds, |v.value.s|)
    case SEmail => v.Some? && v.value.JString? && env.isEmail(v.value.s)
    case SBoolean => v.Some? && v.value.JBool?
    case SNativeEnum => v.Some? && v.value.JString? && v.value.s in env.postTypes
    case SCoerceDate => v.Some? && env.isDate(v.value)
    case SArray(element, bounds) =>
      v.Some? && v.value.JArray? && WithinBounds(bounds, |v.value.items|)
      && forall i :: 0 <= i < |v.value.items| ==> Accepts(env, element, Some(v.value.items[i]))
    case SObject(fields) =>
      v.Some? && v.value.JObject?
      && forall i :: 0 <= i < |fields| ==> Accepts(env, fields[i].schema, Get(v.value, fields[i].key))
  }

  /** An object schema's field check, for one field. */
  predicate FieldAccepts(env: Env, f: Field, v: Json) {
    Accepts(env, f.schema, Get(v, f.key))
  }

  /** A schema with every `.optional()` wrapper taken off. */
  function Unwrap(s: Schema): (r: Schema)
    ensures !r.SOptional?
  {
    if s.SOptional? then Unwrap(s.inner) else s
  }

  /** `.required()`: every field of an object schema loses its
      `.optional()` wrappers. */
  function Required(s: Schema): Schema {
    match s
    case SObject(fields) => SObject(RequiredFields(fields))
    case _ => s
  }

  function RequiredFields(fields: seq<Field>): (r: seq<Field>)
    ensures |r| == |fields|
    ensures forall i :: 0 <= i < |r| ==> r[i] == Field(fields[i].key, Unwrap(fields[i].schema))
  {
    if fields == [] then []
    else [Field(fields[0].key, Unwrap(fields[0].schema))] + RequiredFields(fields[1..])
  }

  predicate Picked(keys: set<string>, f: Field) {
    f.key in keys
  }

  predicate Kept(keys: set<string>, f: Field) {
    f.key !in keys
  }

  /** `.pick({k: true, ...})`: only the fields with the given keys. */
  function Pick(s: Schema, keys: set<string>): Schema {
    match s
    case SObject(fields) => SObject(Filter(fields, f => Picked(keys, f)))
    case _ => s
  }

  /** `.omit({k: true, ...})`: every field but those with the given keys. */
  function Omit(s: Schema, keys: set<string>): Schema {
    match s
    case SObject(fields) => SObject(Filter(fields, f => Kept(keys, f)))
    case _ => s
  }

  // ---------------------------------------------------------------------
  // Properties of the combinators

  /** Taking `.optional()` off changes only what happens to `undefined`:
      on a present value the two schemas agree, and the unwrapped schema
      refuses `undefined` unless what is left accepts it. */
  lemma {:induction false} UnwrapAgreesOnPresentValues(env: Env, s: Schema, v: Option<Json>)
    ensures v.Some? ==> (Accepts(env, Unwrap(s), v) <==> Accepts(env, s, v))
    ensures Accepts(env, Unwrap(s), v) ==> Accepts(env, s, v)
    decreases s
  {
    if s.SOptional? {
      UnwrapAgreesOnPresentValues(env, s.inner, v);
    }
  }

  /** An object schema checks each of its fields. */
  lemma ObjectField(env: Env, fields: seq<Field>, i: nat, v: Json)
    requires Accepts(env, SObject(fields), Some(v)) && i < |fields|
    ensures Accepts(env, fields[i].schema, Get(v, fields[i].key))
  {
    assert fields[i] in fields;
  }

  /** An object schema accepts every object all of whose fields pass. */
  lemma ObjectOfFields(env: Env, fields: seq<Field>, v: Json)
    requires v.JObject?
    requires forall i :: 0 <= i < |fields| ==> Accepts(env, fields[i].schema, Get(v, fields[i].key))
    ensures Accepts(env, SObject(fields), Some(v))
  {
    forall f | f in fields
      ensures Accepts(env, f.schema, Get(v, f.key))
    {
      var i :| 0 <= i < |fields| && fields[i] == f;
    }
  }

  /** An object schema with one field checks exactly that field. */
  lemma OneFieldObject(env: Env, a: Field, v: Json)
    ensures Accepts(env, SObject([a]), Some(v)) <==> v.JObject? && Accepts(env, a.schema, Get(v, a.key))
  {
    var fs := [a];
    assert fs[0] in fs;
  }

  /** An object schema with two fields checks exactly those two. */
  lemma TwoFieldObject(env: Env, a: Field, b: Field, v: Json)
    ensures Accepts(env, SObject([a, b]), Some(v)) <==>
      v.JObject? && Accepts(env, a.schema, Get(v, a.key)) && Accepts(env, b.schema, Get(v, b.key))
  {
    var fs := [a, b];
    assert fs[0] in fs && fs[1] in fs;
  }

  /** A `.required()` object schema accepts exactly the objects whose
      fields all pass their unwrapped checks. */
  lemma RequiredAccepts(env: Env, fields: seq<Field>, v: Option<Json>)
    ensures Accepts(env, Required(SObject(fields)), v) <==>
      v.Some? && v.value.JObject? &&
      forall i :: 0 <= i < |fields| ==> Accepts(env, Unwrap(fields[i].schema), Get(v.value, fields[i].key))
  {
    var r := RequiredFields(fields);
    if v.Some? && v.value.JObject? {
      if forall i :: 0 <= i < |fields| ==> Accepts(env, Unwrap(fields[i].schema), Get(v.value, fields[i].key)) {
        forall f | f in r
          ensures Accepts(env, f.schema, Get(v.value, f.key))
        {
          var i :| 0 <= i < |r| && r[i] == f;
        }
      }
      if Accepts(env, Required(SObject(fields)), v) {
        forall i | 0 <= i < |fields|
          ensures Accepts(env, Unwrap(fields[i].schema), Get(v.value, fields[i].key))
        {
          assert r[i] in r;
        }
      }
    }
  }

  /** `.required()` never accepts more than the schema it comes from. */
  lemma RequiredStrengthens(env: Env, fields: seq<Field>, v: Option<Json>)
    requires Accepts(env, Required(SObject(fields)), v)
    ensures Accepts(env, SObject(fields), v)
  {
    RequiredAccepts(env, fields, v);
    forall f | f in fields
      ensures Accepts(env, f.schema, Get(v.value, f.key))
    {
      var i :| 0 <= i < |fields| && fields[i] == f;
      UnwrapAgreesOnPresentValues(env, f.schema, Get(v.value, f.key));
    }
  }

  /** On an object schema none of whose fields is optional, `.required()`
      changes nothing. */
  lemma RequiredWithoutOptionals(fields: seq<Field>)
    requires forall i :: 0 <= i < |fields| ==> !fields[i].schema.SOptional?
    ensures Required(SObject(fields)) == SObject(fields)
  {
    assert RequiredFields(fields) == fields;
  }

  /** `.pick(...)` accepts exactly the objects whose picked fields pass. */
  lemma PickAccepts(env: Env, fields: seq<Field>, keys: set<string>, v: Option<Json>)
    ensures Accepts(env, Pick(SObject(fields), keys), v) <==>
      v.Some? && v.value.JObject? &&
      forall f :: f in fields && f.key in keys ==> Accepts(env, f.schema, Get(v.value, f.key))
  {
    var p := (f: Field) => Picked(keys, f);
    forall f
      ensures f in Filter(fields, p) <==> f in fields && f.key in keys
    {
      FilterMembership(fields, p, f);
    }
  }

  /** `.omit(...)` accepts exactly the objects whose other fields pass. */
  lemma OmitAccepts(env: Env, fields: seq<Field>, keys: set<string>, v: Option<Json>)
    ensures Accepts(env, Omit(SObject(fields), keys), v) <==>
      v.Some? && v.value.JObject? &&
      forall f :: f in fields && f.key !in keys ==> Accepts(env, f.schema, Get(v.value, f.key))
  {
    var p := (f: Field) => Kept(keys, f);
    forall f
      ensures f in Filter(fields, p) <==> f in fields && f.key !in keys
    {
      FilterMembership(fields, p, f);
    }
  }

  /** Picking or omitting fields only ever widens what an object schema
      accepts. */
  lemma PickOmitWeaken(env: Env, fields: seq<Field>, keys: set<string>, v: Option<Json>)
    requires Accepts(env, SObject(fields), v)
    ensures Accepts(env, Pick(SObject(fields), keys), v)
    ensures Accepts(env, Omit(SObject(fields), keys), v)
  {
    PickAccepts(env, fields, keys, v);
    OmitAccepts(env, fields, keys, v);
  }
}
