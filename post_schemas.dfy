/** The request schemas of `zodSchemas/postSchemas.ts`: an identifier under
    `params`, and a post of title, content and author under `body`. */
module PostSchemas {
  import opened Common
  import opened Schemas
  import V = Validations

  const IdParameterSchema := SObject([Field("params", Required(SObject([Field("id", V.IdString)])))])

  /** The fields a post may have; each request takes the ones it needs. */
  const GeneralPostSchema := SObject([
    Field("title", SString(Bounds(Some(4), None, None))),
    Field("content", SString(Bounds(Some(4), None, None))),
    Field("authorId", V.IdString)])

  const PostSchema := SObject([Field("body", Required(GeneralPostSchema))])

  const UpdatePostSchema := SObject([Field("body", Required(Pick(GeneralPostSchema, {"title", "content"})))])

  /** A post: a title and a content of at least 4 characters each, with no
      upper bound, and a 36-character author identifier. */
  predicate ValidPost(v: Json) {
    v.JObject? && V.StringAtLeast(Get(v, "title"), 4) && V.StringAtLeast(Get(v, "content"), 4)
    && V.IsId(Get(v, "authorId"))
  }

  /** A post update: a title and a content of at least 4 characters each. */
  predicate ValidPostUpdate(v: Json) {
    v.JObject? && V.StringAtLeast(Get(v, "title"), 4) && V.StringAtLeast(Get(v, "content"), 4)
  }

  /** The request passes exactly when `params.id` has 36 characters. */
  lemma IdParameterAccepts(env: Env, v: Json)
    ensures Accepts(env, IdParameterSchema, Some(v)) <==>
      v.JObject? && Get(v, "params").Some? && Get(v, "params").value.JObject?
      && V.IsId(Get(Get(v, "params").value, "id"))
  {
    RequiredWithoutOptionals([Field("id", V.IdString)]);
    OneFieldObject(env, Field("params", SObject([Field("id", V.IdString)])), v);
    if Get(v, "params").Some? {
      OneFieldObject(env, Field("id", V.IdString), Get(v, "params").value);
    }
  }

  /** `generalPostSchema` accepts exactly the posts. */
  lemma GeneralPostAccepts(env: Env, v: Json)
    ensures Accepts(env, GeneralPostSchema, Some(v)) <==> ValidPost(v)
  {
    var fs := GeneralPostSchema.fields;
    assert fs[0] in fs && fs[1] in fs && fs[2] in fs;
  }

  /** The post schema requires a post under `body`. */
  lemma PostAccepts(env: Env, v: Json)
    ensures Accepts(env, PostSchema, Some(v)) <==>
      v.JObject? && Get(v, "body").Some? && ValidPost(Get(v, "body").value)
  {
    RequiredWithoutOptionals(GeneralPostSchema.fields);
    OneFieldObject(env, Field("body", GeneralPostSchema), v);
    if Get(v, "body").Some? {
      GeneralPostAccepts(env, Get(v, "body").value);
    }
  }

  /** Picking title and content keeps the first two fields. */
  lemma UpdatePostPick()
    ensures Filter(GeneralPostSchema.fields, (f: Field) => Picked({"title", "content"}, f))
      == GeneralPostSchema.fields[..2]
  {
    var fs := GeneralPostSchema.fields;
    var p := (f: Field) => Picked({"title", "content"}, f);
    assert fs == fs[..2] + [fs[2]];
    FilterConcat(fs[..2], [fs[2]], p);
    FilterAll(fs[..2], p);
    FilterSingle(fs[2], p);
  }

  /** So the update body is the title and the content, with their checks
      unchanged, and no author. */
  lemma UpdatePostSchemaFields()
    ensures UpdatePostSchema == SObject([Field("body", SObject([
      Field("title", SString(Bounds(Some(4), None, None))),
      Field("content", SString(Bounds(Some(4), None, None)))]))])
  {
    var fs := GeneralPostSchema.fields;
    UpdatePostPick();
    assert fs[..2] == [fs[0], fs[1]];
    RequiredWithoutOptionals([fs[0], fs[1]]);
  }

  /** The update schema requires a title and a content under `body`, and no
      author identifier. */
  lemma UpdatePostAccepts(env: Env, v: Json)
    ensures Accepts(env, UpdatePostSchema, Some(v)) <==>
      v.JObject? && Get(v, "body").Some? && ValidPostUpdate(Get(v, "body").value)
  {
    var title := Field("title", SString(Bounds(Some(4), None, None)));
    var content := Field("content", SString(Bounds(Some(4), None, None)));
    UpdatePostSchemaFields();
    OneFieldObject(env, Field("body", SObject([title, content])), v);
    if Get(v, "body").Some? {
      UpdateBodyAccepts(env, Get(v, "body").value);
    }
  }

  /** The update body needs a title and a content of at least 4 characters. */
  lemma UpdateBodyAccepts(env: Env, b: Json)
    ensures
      var fields := [
        Field("title", SString(Bounds(Some(4), None, None))),
        Field("content", SString(Bounds(Some(4), None, None)))];
      Accepts(env, SObject(fields), Some(b)) <==> ValidPostUpdate(b)
  {
    TwoFieldObject(env, Field("title", SString(Bounds(Some(4), None, None))),
      Field("content", SString(Bounds(Some(4), None, None))), b);
  }

  /** Every request that passes the post schema passes the update schema. */
  lemma PostImpliesUpdatePost(env: Env, v: Json)
    requires Accepts(env, PostSchema, Some(v))
    ensures Accepts(env, UpdatePostSchema, Some(v))
  {
    PostAccepts(env, v);
    UpdatePostAccepts(env, v);
  }
}
