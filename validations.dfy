/** The request schemas of `lib/validations.ts`, written with the zod
    combinators of `Schemas`, and what each of them accepts in plain terms:
    string lengths, optional fields and list sizes. */
module Validations {
  import opened Common
  import opened Schemas

  // ---------------------------------------------------------------------
  // The plain-terms vocabulary the characterizations are stated in

  /** A present string value. */
  predicate IsString(o: Option<Json>) {
    o.Some? && o.value.JString?
  }

  /** A string at least `lo` characters long. */
  predicate StringAtLeast(o: Option<Json>, lo: nat) {
    IsString(o) && |o.value.s| >= lo
  }

  /** A string whose length lies between `lo` and `hi`, both included. */
  predicate StringBetween(o: Option<Json>, lo: nat, hi: nat) {
    IsString(o) && lo <= |o.value.s| <= hi
  }

  /** An identifier: a string of exactly 36 characters, the length of a UUID. */
  predicate IsId(o: Option<Json>) {
    IsString(o) && |o.value.s| == 36
  }

  /** A string the e-mail check accepts. */
  predicate IsEmail(env: Env, o: Option<Json>) {
    IsString(o) && env.isEmail(o.value.s)
  }

  /** Absent, or a string. */
  predicate OptionalString(o: Option<Json>) {
    o.None? || IsString(o)
  }

  /** A list of strings whose size lies between `lo` and `hi`. */
  predicate StringListBetween(o: Option<Json>, lo: nat, hi: nat) {
    o.Some? && o.value.JArray? && lo <= |o.value.items| <= hi
    && forall i :: 0 <= i < |o.value.items| ==> o.value.items[i].JString?
  }

  /** A non-empty list of strings. */
  predicate NonEmptyStringList(o: Option<Json>) {
    o.Some? && o.value.JArray? && |o.value.items| >= 1
    && forall i :: 0 <= i < |o.value.items| ==> o.value.items[i].JString?
  }

  /** One entry of a group's `members` list: a `userId` string and, if
      present, a boolean `isAdmin`. */
  predicate IsMemberEntry(j: Json) {
    j.JObject? && IsString(Get(j, "userId"))
    && (Get(j, "isAdmin").None? || Get(j, "isAdmin").value.JBool?)
  }

  /** A list of member entries, possibly empty. */
  predicate IsMemberList(o: Option<Json>) {
    o.Some? && o.value.JArray?
    && forall i :: 0 <= i < |o.value.items| ==> IsMemberEntry(o.value.items[i])
  }

  // ---------------------------------------------------------------------
  // The schemas, as the source declares them

  const AnyString := SString(NoBounds)
  const IdString := SString(Bounds(None, None, Some(36)))

  /** An object with a single identifier field. */
  function IdOnly(key: string): Schema {
    SObject([Field(key, IdString)])
  }

  const AuthSchema := SObject([
    Field("username", SString(Bounds(Some(4), Some(20), None))),
    Field("email", SEmail),
    Field("password", SString(Bounds(Some(8), None, None)))])

  const UserRegisterSchema := Required(AuthSchema)

  const UserLoginSchema := Required(Omit(AuthSchema, {"username"}))

  const EmailSchema := Pick(AuthSchema, {"email"})

  const IdSchema := IdOnly("id")

  const GeneralPostSchema := SObject([
    Field("authorId", IdString),
    Field("title", SString(Bounds(Some(4), Some(120), None))),
    Field("createType", SNativeEnum),
    Field("groupId", IdString),
    Field("coverImage", SOptional(AnyString)),
    Field("audioFile", SOptional(AnyString)),
    Field("audioTitle", SOptional(AnyString)),
    Field("meetupLocation", SOptional(AnyString)),
    Field("meetupDate", SOptional(SCoerceDate)),
    Field("tinyContent", AnyString),
    Field("interestTechTags", SArray(AnyString, Bounds(Some(1), Some(7), None)))])

  const PostSchema := GeneralPostSchema

  const UpdatePostSchema := Required(Pick(GeneralPostSchema, {"title", "tinyContent"}))

  const UserPostsQuery := SObject([
    Field("postType", SOptional(SNativeEnum)),
    Field("page", SOptional(AnyString))])

  const ViewerIdSchema := SObject([Field("viewerId", SOptional(IdString))])

  const FollowViewerIdSchema := Required(SObject([Field("viewerId", IdString)]))

  const OnBoardingSchema := Required(SObject([
    Field("journey", SString(Bounds(Some(4), None, None))),
    Field("ambitions", SArray(AnyString, Bounds(Some(1), None, None))),
    Field("tech", SArray(AnyString, Bounds(Some(1), None, None))),
    Field("id", IdString)]))

  const ProfileSchema := SObject([
    Field("name", SOptional(AnyString)),
    Field("bio", SOptional(SString(Bounds(None, Some(130), None)))),
    Field("githubLink", SOptional(AnyString)),
    Field("githubHandle", SOptional(AnyString)),
    Field("linkedinLink", SOptional(AnyString)),
    Field("linkedinHandle", SOptional(AnyString)),
    Field("xProfileLink", SOptional(AnyString)),
    Field("xProfileHandle", SOptional(AnyString)),
    Field("instagramLink", SOptional(AnyString)),
    Field("instagramHandle", SOptional(AnyString))])

  const LikerIdSchema := IdOnly("likerId")

  const MemberEntrySchema := SObject([
    Field("userId", AnyString),
    Field("isAdmin", SOptional(SBoolean))])

  const GroupSchema := SObject([
    Field("name", SString(Bounds(Some(4), None, None))),
    Field("bio", SString(Bounds(Some(10), None, None))),
    Field("profileImage", SOptional(AnyString)),
    Field("coverImage", SOptional(AnyString)),
    Field("creatorId", IdString),
    Field("members", SArray(MemberEntrySchema, NoBounds))])

  const EditGroupSchema := SObject([
    Field("name", SOptional(SString(Bounds(Some(4), None, None)))),
    Field("bio", SOptional(SString(Bounds(Some(10), None, None)))),
    Field("profileImage", SOptional(AnyString)),
    Field("coverImage", SOptional(AnyString)),
    Field("userId", IdString)])

  const UserGroupQuery := SObject([
    Field("page", SOptional(AnyString)),
    Field("search", SOptional(AnyString)),
    Field("size", SOptional(AnyString))])

  const UpdateGroupSchema := SObject([
    Field("name", SOptional(AnyString)),
    Field("bio", SOptional(AnyString)),
    Field("profileImage", SOptional(AnyString)),
    Field("coverImage", SOptional(AnyString))])

  const AdminUserSchema := SObject([
    Field("creatorId", IdString),
    Field("memberId", IdString)])

  const MembersSchema := SObject([Field("members", SArray(MemberEntrySchema, NoBounds))])

  const GroupMembersQuery := SObject([Field("page", SOptional(AnyString))])

  const JoinGroupSchema := IdOnly("userId")

  const LeaveGroupSchema := IdOnly("userId")

  const RemoveMemberSchema := SObject([
    Field("memberId", IdString),
    Field("adminId", IdString)])

  // ---------------------------------------------------------------------
  // What each schema accepts

  /** An object with one identifier field accepts exactly the objects whose
      field is a 36-character string (`idSchema`, `likerIdSchema`,
      `joinGroupSchema`, `leaveGroupSchema`). */
  lemma IdOnlyAccepts(env: Env, key: string, v: Json)
    ensures Accepts(env, IdOnly(key), Some(v)) <==> v.JObject? && IsId(Get(v, key))
  {
    var fs := IdOnly(key).fields;
    assert fs[0] in fs;
  }

  lemma IdSchemaAccepts(env: Env, v: Json)
    ensures Accepts(env, IdSchema, Some(v)) <==> v.JObject? && IsId(Get(v, "id"))
  {
    IdOnlyAccepts(env, "id", v);
  }

  /** `authSchema`: a username of 4 to 20 characters, an e-mail address and
      a password of at least 8 characters. */
  lemma AuthSchemaAccepts(env: Env, v: Json)
    ensures Accepts(env, AuthSchema, Some(v)) <==>
      v.JObject? && StringBetween(Get(v, "username"), 4, 20)
      && IsEmail(env, Get(v, "email")) && StringAtLeast(Get(v, "password"), 8)
  {
    var fs := AuthSchema.fields;
    assert fs[0] in fs && fs[1] in fs && fs[2] in fs;
  }

  /** `.required()` changes nothing on `authSchema`, none of whose fields is
      optional: registration asks for exactly what `authSchema` asks. */
  lemma UserRegisterIsAuth()
    ensures UserRegisterSchema == AuthSchema
  {
    var fs := AuthSchema.fields;
    assert forall i :: 0 <= i < |fs| ==> !fs[i].schema.SOptional?;
    RequiredWithoutOptionals(fs);
  }

  /** Login is `authSchema` without its username, both remaining fields
      required. */
  lemma UserLoginSchemaFields()
    ensures UserLoginSchema == SObject([
      Field("email", SEmail),
      Field("password", SString(Bounds(Some(8), None, None)))])
  {
    var fs := AuthSchema.fields;
    var p := (f: Field) => Kept({"username"}, f);
    assert Filter(fs, p) == fs[1..];
    RequiredWithoutOptionals(fs[1..]);
  }

  /** The two fields login checks. */
  lemma LoginFieldsAccept(env: Env, v: Json)
    ensures Accepts(env, SObject([Field("email", SEmail), Field("password", SString(Bounds(Some(8), None, None)))]), Some(v))
      <==> v.JObject? && IsEmail(env, Get(v, "email")) && StringAtLeast(Get(v, "password"), 8)
  {
    TwoFieldObject(env, Field("email", SEmail), Field("password", SString(Bounds(Some(8), None, None))), v);
  }

  /** So login asks for an e-mail address and a password of at least 8
      characters, whatever the username is or whether there is one. */
  lemma UserLoginAccepts(env: Env, v: Json)
    ensures Accepts(env, UserLoginSchema, Some(v)) <==>
      v.JObject? && IsEmail(env, Get(v, "email")) && StringAtLeast(Get(v, "password"), 8)
  {
    UserLoginSchemaFields();
    LoginFieldsAccept(env, v);
  }

  /** Whatever passes registration passes login. */
  lemma RegisterImpliesLogin(env: Env, v: Json)
    requires Accepts(env, UserRegisterSchema, Some(v))
    ensures Accepts(env, UserLoginSchema, Some(v))
  {
    UserRegisterIsAuth();
    AuthSchemaAccepts(env, v);
    UserLoginAccepts(env, v);
  }

  /** `emailSchema` is `authSchema`'s e-mail field alone. */
  lemma EmailSchemaFields()
    ensures EmailSchema == SObject([Field("email", SEmail)])
  {
    var fs := AuthSchema.fields;
    var p := (f: Field) => Picked({"email"}, f);
    assert Filter(fs, p) == [fs[1]];
  }

  /** So it accepts the objects with an e-mail address. */
  lemma EmailSchemaAccepts(env: Env, v: Json)
    ensures Accepts(env, EmailSchema, Some(v)) <==> v.JObject? && IsEmail(env, Get(v, "email"))
  {
    EmailSchemaFields();
    OneFieldObject(env, Field("email", SEmail), v);
  }

  /** A post body as the post schema describes it: identifiers of 36
      characters for the author and the group, a title of 4 to 120
      characters (the bound is 120, although the message speaks of 20), a
      post type, a content string, between 1 and 7 tags, and four optional
      strings and an optional date. */
  predicate ValidPostBody(env: Env, v: Json) {
    v.JObject? && IsId(Get(v, "authorId")) && StringBetween(Get(v, "title"), 4, 120)
    && IsString(Get(v, "createType")) && Get(v, "createType").value.s in env.postTypes
    && IsId(Get(v, "groupId"))
    && OptionalString(Get(v, "coverImage")) && OptionalString(Get(v, "audioFile"))
    && OptionalString(Get(v, "audioTitle")) && OptionalString(Get(v, "meetupLocation"))
    && (Get(v, "meetupDate").None? || env.isDate(Get(v, "meetupDate").value))
    && IsString(Get(v, "tinyContent"))
    && StringListBetween(Get(v, "interestTechTags"), 1, 7)
  }

  /** The identifiers, the title and the type of an accepted post body. */
  lemma PostBodyHeadFields(env: Env, v: Json)
    requires Accepts(env, GeneralPostSchema, Some(v))
    ensures IsId(Get(v, "authorId")) && StringBetween(Get(v, "title"), 4, 120)
    ensures IsString(Get(v, "createType")) && Get(v, "createType").value.s in env.postTypes
    ensures IsId(Get(v, "groupId"))
  {
    var fs := GeneralPostSchema.fields;
    ObjectField(env, fs, 0, v);
    ObjectField(env, fs, 1, v);
    ObjectField(env, fs, 2, v);
    ObjectField(env, fs, 3, v);
  }

  /** The optional media fields of an accepted post body. */
  lemma PostBodyMediaFields(env: Env, v: Json)
    requires Accepts(env, GeneralPostSchema, Some(v))
    ensures OptionalString(Get(v, "coverImage")) && OptionalString(Get(v, "audioFile"))
    ensures OptionalString(Get(v, "audioTitle")) && OptionalString(Get(v, "meetupLocation"))
  {
    var fs := GeneralPostSchema.fields;
    ObjectField(env, fs, 4, v);
    ObjectField(env, fs, 5, v);
    ObjectField(env, fs, 6, v);
    ObjectField(env, fs, 7, v);
  }

  /** The meeting date of an accepted post body. */
  lemma PostBodyDateField(env: Env, v: Json)
    requires Accepts(env, GeneralPostSchema, Some(v))
    ensures Get(v, "meetupDate").None? || env.isDate(Get(v, "meetupDate").value)
  {
    ObjectField(env, GeneralPostSchema.fields, 8, v);
  }

  /** The content and the tags of an accepted post body. */
  lemma PostBodyContentFields(env: Env, v: Json)
    requires Accepts(env, GeneralPostSchema, Some(v))
    ensures IsString(Get(v, "tinyContent"))
    ensures StringListBetween(Get(v, "interestTechTags"), 1, 7)
  {
    var fs := GeneralPostSchema.fields;
    ObjectField(env, fs, 9, v);
    ObjectField(env, fs, 10, v);
  }

  /** What an accepted post body looks like. */
  lemma PostBodyFields(env: Env, v: Json)
    ensures Accepts(env, GeneralPostSchema, Some(v)) ==> ValidPostBody(env, v)
  {
    if Accepts(env, GeneralPostSchema, Some(v)) {
      PostBodyHeadFields(env, v);
      PostBodyMediaFields(env, v);
      PostBodyDateField(env, v);
      PostBodyContentFields(env, v);
    }
  }

  /** Every valid post body passes the post schema. */
  lemma PostBodyAccepted(env: Env, v: Json)
    ensures ValidPostBody(env, v) ==> Accepts(env, GeneralPostSchema, Some(v))
  {
    if ValidPostBody(env, v) { ObjectOfFields(env, GeneralPostSchema.fields, v); }
  }

  /** The post schema accepts exactly the valid post bodies. */
  lemma GeneralPostAccepts(env: Env, v: Json)
    ensures Accepts(env, GeneralPostSchema, Some(v)) <==> ValidPostBody(env, v)
  {
    PostBodyFields(env, v);
    PostBodyAccepted(env, v);
  }

  /** Picking the title and the content out of the post schema keeps their
      checks unchanged. */
  lemma UpdatePostPick()
    ensures Filter(GeneralPostSchema.fields, (f: Field) => Picked({"title", "tinyContent"}, f))
      == [GeneralPostSchema.fields[1], GeneralPostSchema.fields[9]]
  {
    var fs := GeneralPostSchema.fields;
    var p := (f: Field) => Picked({"title", "tinyContent"}, f);
    assert fs == fs[..2] + fs[2..];
    FilterConcat(fs[..2], fs[2..], p);
    UpdatePostPickFront();
    UpdatePostPickBack();
  }

  /** Of the first two fields, the pick keeps the title. */
  lemma UpdatePostPickFront()
    ensures Filter(GeneralPostSchema.fields[..2], (f: Field) => Picked({"title", "tinyContent"}, f))
      == [GeneralPostSchema.fields[1]]
  {
    var fs := GeneralPostSchema.fields;
    var p := (f: Field) => Picked({"title", "tinyContent"}, f);
    assert fs[..2] == [fs[0]] + [fs[1]];
    FilterConcat([fs[0]], [fs[1]], p);
    FilterSingle(fs[0], p);
    FilterSingle(fs[1], p);
  }

  /** Of the other fields, the pick keeps the content. */
  lemma UpdatePostPickBack()
    ensures Filter(GeneralPostSchema.fields[2..], (f: Field) => Picked({"title", "tinyContent"}, f))
      == [GeneralPostSchema.fields[9]]
  {
    var fs := GeneralPostSchema.fields;
    var p := (f: Field) => Picked({"title", "tinyContent"}, f);
    assert fs[2..] == fs[2..9] + fs[9..];
    FilterConcat(fs[2..9], fs[9..], p);
    UpdatePostPickNone();
    UpdatePostPickTail();
  }

  /** Of the last two fields, the pick keeps the content. */
  lemma UpdatePostPickTail()
    ensures Filter(GeneralPostSchema.fields[9..], (f: Field) => Picked({"title", "tinyContent"}, f))
      == [GeneralPostSchema.fields[9]]
  {
    var fs := GeneralPostSchema.fields;
    var p := (f: Field) => Picked({"title", "tinyContent"}, f);
    assert fs[9..] == [fs[9]] + [fs[10]];
    FilterConcat([fs[9]], [fs[10]], p);
    FilterSingle(fs[9], p);
    FilterSingle(fs[10], p);
  }

  /** The pick keeps none of the third to ninth fields. */
  lemma UpdatePostPickNone()
    ensures Filter(GeneralPostSchema.fields[2..9], (f: Field) => Picked({"title", "tinyContent"}, f)) == []
  {
    var fs := GeneralPostSchema.fields;
    var p := (f: Field) => Picked({"title", "tinyContent"}, f);
    FilterNone(fs[2..9], p);
  }

  /** The update schema is the title, with the same 4 to 120 bound, and the
      content string, both required and nothing else. */
  lemma UpdatePostSchemaFields()
    ensures UpdatePostSchema == SObject([
      Field("title", SString(Bounds(Some(4), Some(120), None))),
      Field("tinyContent", AnyString)])
  {
    var fs := GeneralPostSchema.fields;
    UpdatePostPick();
    RequiredWithoutOptionals([fs[1], fs[9]]);
  }

  /** So an update needs a title of 4 to 120 characters and a content
      string, and nothing about the author, the group or the tags. */
  lemma UpdatePostAccepts(env: Env, v: Json)
    ensures Accepts(env, UpdatePostSchema, Some(v)) <==>
      v.JObject? && StringBetween(Get(v, "title"), 4, 120) && IsString(Get(v, "tinyContent"))
  {
    UpdatePostSchemaFields();
    TwoFieldObject(env, Field("title", SString(Bounds(Some(4), Some(120), None))),
      Field("tinyContent", AnyString), v);
  }

  /** A valid post is a valid update. */
  lemma PostImpliesUpdatePost(env: Env, v: Json)
    requires Accepts(env, PostSchema, Some(v))
    ensures Accepts(env, UpdatePostSchema, Some(v))
  {
    GeneralPostAccepts(env, v);
    UpdatePostAccepts(env, v);
  }

  /** The posts query: an optional post type and an optional page string. */
  lemma UserPostsQueryAccepts(env: Env, v: Json)
    ensures Accepts(env, UserPostsQuery, Some(v)) <==>
      v.JObject? && (Get(v, "postType").None? || (IsString(Get(v, "postType")) && Get(v, "postType").value.s in env.postTypes))
      && OptionalString(Get(v, "page"))
  {
    var fs := UserPostsQuery.fields;
    assert fs[0] in fs && fs[1] in fs;
  }

  /** The viewer identifier may be left out; if present it has 36 characters. */
  lemma ViewerIdAccepts(env: Env, v: Json)
    ensures Accepts(env, ViewerIdSchema, Some(v)) <==>
      v.JObject? && (Get(v, "viewerId").None? || IsId(Get(v, "viewerId")))
  {
    var fs := ViewerIdSchema.fields;
    assert fs[0] in fs;
  }

  /** Following needs the viewer identifier. */
  lemma FollowViewerIdAccepts(env: Env, v: Json)
    ensures Accepts(env, FollowViewerIdSchema, Some(v)) <==> v.JObject? && IsId(Get(v, "viewerId"))
  {
    var fs := [Field("viewerId", IdString)];
    RequiredWithoutOptionals(fs);
    assert fs[0] in fs;
  }

  /** On-boarding data: a journey of at least 4 characters, at least one
      ambition and one technology, and a 36-character identifier. */
  predicate ValidOnBoarding(v: Json) {
    v.JObject? && StringAtLeast(Get(v, "journey"), 4)
    && NonEmptyStringList(Get(v, "ambitions")) && NonEmptyStringList(Get(v, "tech"))
    && IsId(Get(v, "id"))
  }

  /** `.required()` leaves the on-boarding fields as they are. */
  lemma OnBoardingFieldsUnwrapped()
    ensures OnBoardingSchema == SObject([
      Field("journey", SString(Bounds(Some(4), None, None))),
      Field("ambitions", SArray(AnyString, Bounds(Some(1), None, None))),
      Field("tech", SArray(AnyString, Bounds(Some(1), None, None))),
      Field("id", IdString)])
  {
    RequiredWithoutOptionals([
      Field("journey", SString(Bounds(Some(4), None, None))),
      Field("ambitions", SArray(AnyString, Bounds(Some(1), None, None))),
      Field("tech", SArray(AnyString, Bounds(Some(1), None, None))),
      Field("id", IdString)]);
  }

  lemma OnBoardingFields(env: Env, v: Json)
    ensures Accepts(env, OnBoardingSchema, Some(v)) ==> ValidOnBoarding(v)
  {
    if Accepts(env, OnBoardingSchema, Some(v)) {
      OnBoardingFieldsUnwrapped();
      var fs := OnBoardingSchema.fields;
      ObjectField(env, fs, 0, v);
      ObjectField(env, fs, 1, v);
      ObjectField(env, fs, 2, v);
      ObjectField(env, fs, 3, v);
    }
  }

  /** Every valid on-boarding record passes the on-boarding schema. */
  lemma OnBoardingAccepted(env: Env, v: Json)
    ensures ValidOnBoarding(v) ==> Accepts(env, OnBoardingSchema, Some(v))
  {
    if ValidOnBoarding(v) {
      OnBoardingFieldsUnwrapped();
      ObjectOfFields(env, OnBoardingSchema.fields, v);
    }
  }

  /** The on-boarding schema accepts exactly the valid on-boarding data. */
  lemma OnBoardingAccepts(env: Env, v: Json)
    ensures Accepts(env, OnBoardingSchema, Some(v)) <==> ValidOnBoarding(v)
  {
    OnBoardingFields(env, v);
    OnBoardingAccepted(env, v);
  }

  /** A profile update: every field is optional and a string when present;
      a bio has at most 130 characters. */
  predicate ValidProfile(v: Json) {
    v.JObject? && OptionalString(Get(v, "name"))
    && (Get(v, "bio").None? || StringBetween(Get(v, "bio"), 0, 130))
    && OptionalString(Get(v, "githubLink")) && OptionalString(Get(v, "githubHandle"))
    && OptionalString(Get(v, "linkedinLink")) && OptionalString(Get(v, "linkedinHandle"))
    && OptionalString(Get(v, "xProfileLink")) && OptionalString(Get(v, "xProfileHandle"))
    && OptionalString(Get(v, "instagramLink")) && OptionalString(Get(v, "instagramHandle"))
  }

  lemma ProfileFields(env: Env, v: Json)
    ensures Accepts(env, ProfileSchema, Some(v)) ==> ValidProfile(v)
  {
    if Accepts(env, ProfileSchema, Some(v)) {
      var fs := ProfileSchema.fields;
      ObjectField(env, fs, 0, v);
      ObjectField(env, fs, 1, v);
      ObjectField(env, fs, 2, v);
      ObjectField(env, fs, 3, v);
      ObjectField(env, fs, 4, v);
      ObjectField(env, fs, 5, v);
      ObjectField(env, fs, 6, v);
      ObjectField(env, fs, 7, v);
      ObjectField(env, fs, 8, v);
      ObjectField(env, fs, 9, v);
    }
  }

  /** Every valid profile update passes the profile schema. */
  lemma ProfileAccepted(env: Env, v: Json)
    ensures ValidProfile(v) ==> Accepts(env, ProfileSchema, Some(v))
  {
    if ValidProfile(v) { ObjectOfFields(env, ProfileSchema.fields, v); }
  }

  /** The profile schema accepts exactly the valid profile updates. */
  lemma ProfileAccepts(env: Env, v: Json)
    ensures Accepts(env, ProfileSchema, Some(v)) <==> ValidProfile(v)
  {
    ProfileFields(env, v);
    ProfileAccepted(env, v);
  }

  /** In particular the empty object is a valid profile update. */
  lemma ProfileAcceptsEmpty(env: Env)
    ensures Accepts(env, ProfileSchema, Some(JObject(map[])))
  {
    ProfileAccepts(env, JObject(map[]));
  }

  lemma LikerIdAccepts(env: Env, v: Json)
    ensures Accepts(env, LikerIdSchema, Some(v)) <==> v.JObject? && IsId(Get(v, "likerId"))
  {
    IdOnlyAccepts(env, "likerId", v);
  }

  /** A member entry schema accepts exactly the member entries. */
  lemma MemberEntryAccepts(env: Env, j: Json)
    ensures Accepts(env, MemberEntrySchema, Some(j)) <==> IsMemberEntry(j)
  {
    var fs := MemberEntrySchema.fields;
    assert fs[0] in fs && fs[1] in fs;
  }

  /** The list of member entries. */
  lemma MemberListAccepts(env: Env, o: Option<Json>)
    ensures Accepts(env, SArray(MemberEntrySchema, NoBounds), o) <==> IsMemberList(o)
  {
    if o.Some? && o.value.JArray? {
      forall i | 0 <= i < |o.value.items|
        ensures Accepts(env, MemberEntrySchema, Some(o.value.items[i])) <==> IsMemberEntry(o.value.items[i])
      {
        MemberEntryAccepts(env, o.value.items[i]);
      }
    }
  }

  /** A new group: a name of at least 4 characters, a bio of at least 10, a
      36-character `creatorId` and a list of member entries; the images are
      optional. */
  predicate ValidNewGroup(v: Json) {
    v.JObject? && StringAtLeast(Get(v, "name"), 4) && StringAtLeast(Get(v, "bio"), 10)
    && OptionalString(Get(v, "profileImage")) && OptionalString(Get(v, "coverImage"))
    && IsId(Get(v, "creatorId")) && IsMemberList(Get(v, "members"))
  }

  lemma NewGroupFields(env: Env, v: Json)
    ensures Accepts(env, GroupSchema, Some(v)) ==> ValidNewGroup(v)
  {
    if Accepts(env, GroupSchema, Some(v)) {
      var fs := GroupSchema.fields;
      ObjectField(env, fs, 0, v);
      ObjectField(env, fs, 1, v);
      ObjectField(env, fs, 2, v);
      ObjectField(env, fs, 3, v);
      ObjectField(env, fs, 4, v);
      ObjectField(env, fs, 5, v);
      MemberListAccepts(env, Get(v, "members"));
    }
  }

  /** Every valid new group passes the group schema. */
  lemma NewGroupAccepted(env: Env, v: Json)
    ensures ValidNewGroup(v) ==> Accepts(env, GroupSchema, Some(v))
  {
    if ValidNewGroup(v) {
      MemberListAccepts(env, Get(v, "members"));
      ObjectOfFields(env, GroupSchema.fields, v);
    }
  }

  /** The group schema accepts exactly the valid new groups. */
  lemma GroupSchemaAccepts(env: Env, v: Json)
    ensures Accepts(env, GroupSchema, Some(v)) <==> ValidNewGroup(v)
  {
    NewGroupFields(env, v);
    NewGroupAccepted(env, v);
  }

  /** A group edit: the same bounds on name and bio, but only when they are
      present, and always a 36-character `userId`. */
  predicate ValidGroupEdit(v: Json) {
    v.JObject? && (Get(v, "name").None? || StringAtLeast(Get(v, "name"), 4))
    && (Get(v, "bio").None? || StringAtLeast(Get(v, "bio"), 10))
    && OptionalString(Get(v, "profileImage")) && OptionalString(Get(v, "coverImage"))
    && IsId(Get(v, "userId"))
  }

  lemma GroupEditFields(env: Env, v: Json)
    ensures Accepts(env, EditGroupSchema, Some(v)) ==> ValidGroupEdit(v)
  {
    if Accepts(env, EditGroupSchema, Some(v)) {
      var fs := EditGroupSchema.fields;
      ObjectField(env, fs, 0, v);
      ObjectField(env, fs, 1, v);
      ObjectField(env, fs, 2, v);
      ObjectField(env, fs, 3, v);
      ObjectField(env, fs, 4, v);
    }
  }

  /** Every valid group edit passes the edit schema. */
  lemma GroupEditAccepted(env: Env, v: Json)
    ensures ValidGroupEdit(v) ==> Accepts(env, EditGroupSchema, Some(v))
  {
    if ValidGroupEdit(v) { ObjectOfFields(env, EditGroupSchema.fields, v); }
  }

  /** The edit schema accepts exactly the valid group edits. */
  lemma EditGroupAccepts(env: Env, v: Json)
    ensures Accepts(env, EditGroupSchema, Some(v)) <==> ValidGroupEdit(v)
  {
    GroupEditFields(env, v);
    GroupEditAccepted(env, v);
  }

  lemma UserGroupQueryAccepts(env: Env, v: Json)
    ensures Accepts(env, UserGroupQuery, Some(v)) <==>
      v.JObject? && OptionalString(Get(v, "page")) && OptionalString(Get(v, "search"))
      && OptionalString(Get(v, "size"))
  {
    var fs := UserGroupQuery.fields;
    assert fs[0] in fs && fs[1] in fs && fs[2] in fs;
  }

  lemma UpdateGroupAccepts(env: Env, v: Json)
    ensures Accepts(env, UpdateGroupSchema, Some(v)) <==>
      v.JObject? && OptionalString(Get(v, "name")) && OptionalString(Get(v, "bio"))
      && OptionalString(Get(v, "profileImage")) && OptionalString(Get(v, "coverImage"))
  {
    var fs := UpdateGroupSchema.fields;
    assert fs[0] in fs && fs[1] in fs && fs[2] in fs && fs[3] in fs;
  }

  lemma AdminUserAccepts(env: Env, v: Json)
    ensures Accepts(env, AdminUserSchema, Some(v)) <==>
      v.JObject? && IsId(Get(v, "creatorId")) && IsId(Get(v, "memberId"))
  {
    var fs := AdminUserSchema.fields;
    assert fs[0] in fs && fs[1] in fs;
  }

  lemma MembersAccepts(env: Env, v: Json)
    ensures Accepts(env, MembersSchema, Some(v)) <==> v.JObject? && IsMemberList(Get(v, "members"))
  {
    var fs := MembersSchema.fields;
    assert fs[0] in fs;
    MemberListAccepts(env, Get(v, "members"));
  }

  lemma GroupMembersQueryAccepts(env: Env, v: Json)
    ensures Accepts(env, GroupMembersQuery, Some(v)) <==> v.JObject? && OptionalString(Get(v, "page"))
  {
    var fs := GroupMembersQuery.fields;
    assert fs[0] in fs;
  }

  lemma JoinGroupAccepts(env: Env, v: Json)
    ensures Accepts(env, JoinGroupSchema, Some(v)) <==> v.JObject? && IsId(Get(v, "userId"))
  {
    IdOnlyAccepts(env, "userId", v);
  }

  lemma LeaveGroupAccepts(env: Env, v: Json)
    ensures Accepts(env, LeaveGroupSchema, Some(v)) <==> v.JObject? && IsId(Get(v, "userId"))
  {
    IdOnlyAccepts(env, "userId", v);
  }

  lemma RemoveMemberAccepts(env: Env, v: Json)
    ensures Accepts(env, RemoveMemberSchema, Some(v)) <==>
      v.JObject? && IsId(Get(v, "memberId")) && IsId(Get(v, "adminId"))
  {
    var fs := RemoveMemberSchema.fields;
    assert fs[0] in fs && fs[1] in fs;
  }

  /** `groupSchema` never looks at a `userId`: taking one away from an
      accepted body leaves it accepted. */
  lemma GroupSchemaIgnoresUserId(env: Env, m: map<string, Json>)
    requires Accepts(env, GroupSchema, Some(JObject(m)))
    ensures Accepts(env, GroupSchema, Some(JObject(m - {"userId"})))
  {
    GroupSchemaAccepts(env, JObject(m));
    GroupSchemaAccepts(env, JObject(m - {"userId"}));
  }

  /** A concrete new-group body without a `userId`, in plain terms. */
  lemma SampleGroupBodyValid()
    ensures ValidNewGroup(SampleGroupBody) && Get(SampleGroupBody, "userId").None?
  {
  }

  const SampleGroupBody := JObject(map[
    "name" := JString("Rustaceans"),
    "bio" := JString("We write Rust together."),
    "creatorId" := JString("881e1c4e-1463-49d6-912c-a11f82c58985"),
    "members" := JArray([])])

  /** A body that `groupSchema` accepts need not carry a `userId`: the
      schema names the creator `creatorId`. */
  lemma GroupBodyWithoutUserId(env: Env)
    ensures Accepts(env, GroupSchema, Some(SampleGroupBody)) && Get(SampleGroupBody, "userId").None?
  {
    SampleGroupBodyValid();
    GroupSchemaAccepts(env, SampleGroupBody);
  }
}
