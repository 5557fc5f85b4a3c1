# dev-today back end: groups, follows, post listings and request validation

This Dafny project models the logic of the dev-today back end, an Express and Prisma
server. The model replaces the database with in-memory tables, each owned by a class.
It covers:

- **Group membership** (`routes/group.ts`). The class `Groups.GroupStore` holds the
  group table (a map from identifier to `Group`) and the `groupUser` table (a sequence
  of `Membership` rows in insertion order). Create, add-members, add-admins, get-admins,
  get-members, get-group, edit and join are methods or functions of that class. Each
  handler's answer is an `Outcome` value (`Ok`, `NotFound`, `Unauthorized`,
  `InternalError`, `NoResponse`) instead of an HTTP response. The ghost predicate
  `ValidState` is the invariant every handler keeps:
  - the map is keyed by group identifier;
  - every row belongs to an existing group;
  - the first row of every group is its creator's row, with `isAdmin` and `isCreator`
    both set.
- **Follows and posts** (`routes/user.ts`). The class `Users.UserStore` holds the user
  table and the ordered follow table.
  - The follow handler is a guarded insert. Delete-all clears the user table.
  - The paginated posts listing (`UserPosts`) is a pure function over a post sequence.
    It uses `parseInt(page) || 1` and a page size of 5.
  - The profile view's newest post of each type, at most 3 (`LatestPerType`), is also a
    pure function.
  - `parseInt` is modelled after section 19.2.5 of ECMA-262 (module `Strings`).
- **Request validators** (`lib/validations.ts`, `zodSchemas/authSchemas.ts`,
  `zodSchemas/postSchemas.ts`).
  - Module `Schemas` is a small model of zod: a `Json` value type, a `Schema` datatype
    for the constructors the source uses, the predicate `Accepts` ("`parse` succeeds"),
    and `.required()`, `.pick()` and `.omit()`.
  - Every schema of the source is a constant `Schema` value written as the source
    declares it.
  - Each schema has a lemma that says, field by field, exactly which values it accepts.
- **Validation middlewares** (`middlewares/middleware.ts`,
  `middlewares/authMiddleware.ts`).
  - `schema.parse` is an abstract function returning a `ParseOutcome`.
  - Each middleware is a function from the request to a `Decision`: either `Next`, or a
    response with a status and a body.
  - Module `RequestValidation` holds the shared mapping from zod issues to
    `"label: message"` strings.

Prisma behaviour the handlers depend on is stated explicitly:
- a field that is `undefined` is ignored in `update` and `findFirst`;
- `create` given an array throws;
- a negative `skip` throws;
- a value outside the `PostType` enumeration throws;
- `connect` to a missing user throws;
- `createMany` is atomic;
- `findMany` returns rows in insertion order.

The model follows the code as written, also where the code contradicts itself:
- the create handler reads `userId`, although `groupSchema` declares `creatorId`
  (lib/validations.ts:119-133);
- join does not check for an existing membership;
- add-admins hands a list to single-row `create`;
- the title's error message says 20 characters, while the bound is 120.

## Model

| member | source | states |
|---|---|---|
| Groups.GroupStore.Create | routes/group.ts:24-47 | With a `userId` in the body, one new group is added with the given fields, plus exactly one row for that user with isAdmin and isCreator set; nothing else changes. Without a `userId` the nested create fails: InternalError, and both tables are unchanged. The store invariant is kept. |
| Groups.GroupStore.CreateForCreator | routes/group.ts:26-40 | The corrected create, which reads `creatorId`: one new group and exactly one creator row (isAdmin and isCreator) for that user; other rows are unchanged and the invariant is kept. |
| Groups.CreateKeepsValidIfValid | routes/group.ts:26-40 | Adding a fresh group together with its creator/admin row keeps the store invariant. |
| Groups.GroupStore.AddMembers | routes/group.ts:60-81 | A missing group gives NotFound and no change. Otherwise one row per entry is appended, in order, each with that entry's user, the path's group and the entry's isAdmin (the column default when absent). There is no role check. The answer is the count created, and the invariant is kept. |
| Groups.MemberRows | routes/group.ts:75-79 | The rows built from the entries: same length, entry i's user, the path's group, and isAdmin from the entry or else the default. |
| Groups.GroupStore.AddAdmins | routes/group.ts:101-117 | As written, a list is handed to single-row `create`. The call always throws, so the answer is InternalError and neither table changes. |
| Groups.AdminRows | routes/group.ts:105-109 | Every row built by add-admins has isAdmin set, whatever the entry says, with the entry's user and the path's group. |
| Groups.GroupStore.AddAdminsWithCreateMany | routes/group.ts:104-111 | The corrected add-admins, using `createMany`. For a known group (or no entries) it appends exactly the admin rows in entry order. Entries for a missing group fail atomically and change nothing. The invariant is kept. |
| Groups.GroupStore.InsertOne | routes/group.ts:275-280 | A single-row create succeeds exactly when it is given one row whose group exists; then exactly that row is appended. Otherwise nothing changes. |
| Groups.GroupStore.InsertMany | routes/group.ts:74-80 | `createMany` succeeds exactly when every row's group exists; then the rows are appended in order. Otherwise nothing changes. |
| Groups.GroupStore.GetAdmins | routes/group.ts:127-128 | A row is in the result exactly when it is in the table, has this group and has isAdmin set. |
| Groups.GroupStore.GetMembers | routes/group.ts:157-158 | A row is in the result exactly when it is in the table and has this group. |
| Groups.MembersOfExactly | routes/group.ts:157-158 | Membership in the filtered rows is equivalent to being a row of this group. |
| Groups.AdminsOfExactly | routes/group.ts:127-128 | Membership in the admin filter is equivalent to being an admin row of this group. |
| Groups.AdminsAreMembers | routes/group.ts:127-128 | Get-admins' result is a sub-multiset of get-members' result. |
| Groups.MembersOfAppend | routes/group.ts:74-80 | Filtering distributes over appending, so appended rows come after the existing ones in a group's listing. |
| Groups.AppendKeepsValid | routes/group.ts:74-80 | Appending rows that all belong to existing groups keeps the store invariant. |
| Groups.GroupStore.GetGroup | routes/group.ts:188-196 | A missing group writes no response. A present group is answered with its record and its rows. |
| Groups.Patch | routes/group.ts:231-239 | The update overwrites name, bio, profileImage and coverImage only where a value is given, and never the identifier. |
| Groups.GroupStore.Edit | routes/group.ts:216-249 | A missing group, or a first row that belongs to another user, gives Unauthorized with no change. An existing group with no rows throws and gives InternalError. Otherwise the group is replaced by its patch. Membership rows never change, and the invariant is kept. |
| Groups.GateInValidState | routes/group.ts:219-229 | In a valid store the edit gate never crashes. For an existing group it allows exactly the user of the group's first row. |
| Groups.GateAllowsOnlyCreator | routes/group.ts:219-229 | In a valid store, a permitted editor holds an admin-and-creator row in that group. |
| Groups.GroupStore.Join | routes/group.ts:262-280 | For an existing group exactly one row (user, group, column defaults) is appended, even when the user is already a member. The group's row count grows by one in every case. A missing group throws on the foreign key and changes nothing. The invariant is kept. |
| Users.ExistingFollows | routes/user.ts:125-130 | The lookup is empty exactly when no row has this follower and (if given) this followed user; an `undefined` followid matches every row of the follower. |
| Users.UserStore.Follow | routes/user.ts:114-152 | A self-follow gives the self-follow BadRequest, and an existing pair gives the already-following BadRequest; neither changes anything. A missing followid or an unknown user gives InternalError. Otherwise exactly the pair is appended; it was not present, and the reverse pair is neither added nor removed. No self-pair and no duplicate pair is ever inserted. |
| Users.UserStore.DeleteAllUsers | routes/user.ts:190-196 | An empty user table gives "No users to delete" and no change. Otherwise the answer is "Users deleted" and the table becomes empty. |
| Users.Upper | routes/user.ts:71 | Upper-casing maps each character on its own: a lower-case ASCII letter becomes its capital (code point minus 32), and every other character is kept. The length is kept and no lower-case ASCII letter is left. |
| Users.TypeFilter | routes/user.ts:69-72 | The type filter exists exactly when a non-empty postType is given, and it is its upper-case form. |
| Users.PageNumber | routes/user.ts:74 | The page number is never 0. |
| Users.PageDefaults | routes/user.ts:74 | A missing page, every page that `parseInt` reads as `NaN` (such as `""`, `"abc"`, `"-x"` or `" x"`), and page "0" all become page 1. |
| Users.PageOfRendering | routes/user.ts:74 | The decimal rendering of a positive n is page n. |
| Users.PageOfNegativeRendering | routes/user.ts:74 | "-n" is page -n for a positive n. |
| Users.PageOfParsed | routes/user.ts:74 | Whenever `parseInt` yields a non-zero number, that number is the page. |
| Users.Window | routes/user.ts:87-88 | `skip` then `take`: at most `take` elements, element i being element skip+i of the input, with the exact length. |
| Users.UserPostsSpec | routes/user.ts:69-105 | The listing fails exactly for a type outside the enumeration or a page below 1. Otherwise it is the window at (page-1)*5 of the author's matching posts: at most 5 posts, all the author's and, when a type is given, all of that type. |
| Users.PageWindow | routes/user.ts:74-98 | For page n ≥ 1 and a valid type, the listing is the window at (n-1)*5 of the matching posts. |
| Users.PostOnItsPage | routes/user.ts:78-98 | The matching post at position 5q+m appears as entry m of page q+1. |
| Users.NegativePageFails | routes/user.ts:74-78 | A negative page gives a negative skip, and the listing fails. |
| Users.Insert | routes/user.ts:44-46 | Inserting into a newest-first list keeps it newest first and adds exactly the one post as a multiset. |
| Users.SortNewestFirst | routes/user.ts:44-46 | The ordering is a permutation of the posts and is newest first. |
| Users.DistinctByType | routes/user.ts:47 | `distinct` keeps posts of unseen types only, with pairwise distinct types, and every type of the input is kept or already seen. |
| Users.DistinctOfNewestFirst | routes/user.ts:44-47 | On a newest-first list, `distinct` yields a newest-first list in which each kept post is the newest of its type. |
| Users.OwnNewestFirst | routes/user.ts:43-46 | Exactly the user's own posts, newest first. |
| Users.LatestPerTypeShape | routes/user.ts:43-49 | The profile keeps at most 3 of the user's posts, with pairwise distinct types. When it keeps fewer than 3, every type the user posted in is represented. |
| Users.LatestPerTypeNewest | routes/user.ts:43-49 | The kept posts are newest first, and each is the newest of the user's posts of its type. |
| Users.LatestPerTypeMostRecent | routes/user.ts:43-49 | When 3 posts are shown, they are the three types posted in most recently: a post of any type left off is no newer than the third post shown. |
| Schemas.UnwrapAgreesOnPresentValues | lib/validations.ts:15 | Removing `.optional()` changes only what happens to `undefined`. |
| Schemas.RequiredAccepts | lib/validations.ts:15-17 | A `.required()` object accepts exactly the objects whose fields pass their unwrapped checks. |
| Schemas.RequiredStrengthens | lib/validations.ts:15-17 | `.required()` never accepts more than its source schema. |
| Schemas.RequiredWithoutOptionals | lib/validations.ts:15 | On an object without optional fields, `.required()` changes nothing. |
| Schemas.PickAccepts | lib/validations.ts:19 | `.pick` accepts exactly the objects whose picked fields pass. |
| Schemas.OmitAccepts | lib/validations.ts:17 | `.omit` accepts exactly the objects whose remaining fields pass. |
| Schemas.PickOmitWeaken | lib/validations.ts:17-19 | Picking or omitting fields only widens what an object schema accepts. |
| Schemas.ObjectOfFields | lib/validations.ts:4-13 | An object schema accepts every object all of whose declared fields pass; undeclared keys are stripped, not refused. |
| Schemas.OneFieldObject | lib/validations.ts:21-25 | A one-field object schema checks exactly that field. |
| Schemas.TwoFieldObject | lib/validations.ts:164-171 | A two-field object schema checks exactly those two fields. |
| Validations.IdOnlyAccepts | lib/validations.ts:21-25 | A one-identifier schema accepts exactly the objects whose field is a 36-character string. |
| Validations.IdSchemaAccepts | lib/validations.ts:21-25 | `idSchema` accepts exactly the objects whose `id` has length 36. |
| Validations.AuthSchemaAccepts | lib/validations.ts:4-13 | Username 4 to 20 characters, an e-mail, and a password of at least 8 characters: exactly these. |
| Validations.UserRegisterIsAuth | lib/validations.ts:15 | `.required()` leaves the register schema equal to the auth schema. |
| Validations.UserLoginSchemaFields | lib/validations.ts:17 | The login schema is e-mail and password, with no username. |
| Validations.UserLoginAccepts | lib/validations.ts:17 | Login accepts exactly an e-mail plus a password of at least 8 characters, with no username constraint. |
| Validations.RegisterImpliesLogin | lib/validations.ts:15-17 | Every register body passes login. |
| Validations.EmailSchemaFields | lib/validations.ts:19 | The picked schema is the e-mail field alone. |
| Validations.EmailSchemaAccepts | lib/validations.ts:19 | Exactly the objects with an e-mail. |
| Validations.GeneralPostAccepts | lib/validations.ts:27-49 | A post body is accepted exactly when all of these hold: 36-character authorId and groupId; a 4 to 120 character title (the bound is 120 whatever the message says); a type in the enumeration; optional string media fields; an optional valid date; a content string; and 1 to 7 tag strings. |
| Validations.UpdatePostSchemaFields | lib/validations.ts:53-55 | The update schema is exactly the title and content fields of the full schema, with the same bounds. |
| Validations.UpdatePostAccepts | lib/validations.ts:53-55 | Update accepts exactly a 4 to 120 character title and a content string. |
| Validations.PostImpliesUpdatePost | lib/validations.ts:51-55 | Every full post body passes the update schema. |
| Validations.UserPostsQueryAccepts | lib/validations.ts:57-60 | An optional enumeration postType and an optional string page. |
| Validations.ViewerIdAccepts | lib/validations.ts:62-69 | viewerId is absent or has 36 characters. |
| Validations.FollowViewerIdAccepts | lib/validations.ts:71-77 | viewerId is required, with 36 characters. |
| Validations.OnBoardingAccepts | lib/validations.ts:79-93 | Journey of at least 4 characters, non-empty ambitions and tech, and an id of 36 characters: exactly these. |
| Validations.ProfileAccepts | lib/validations.ts:95-111 | Every field is optional and a string; a present bio has at most 130 characters. |
| Validations.ProfileAcceptsEmpty | lib/validations.ts:95-111 | The empty object is a valid profile. |
| Validations.LikerIdAccepts | lib/validations.ts:113-117 | likerId has 36 characters. |
| Validations.MemberEntryAccepts | lib/validations.ts:128-131 | A member entry is a userId string and an optional boolean isAdmin. |
| Validations.MemberListAccepts | lib/validations.ts:127-132 | A members list is a possibly empty array of member entries. |
| Validations.GroupSchemaAccepts | lib/validations.ts:119-133 | Name of at least 4 characters, bio of at least 10, optional image strings, a 36-character creatorId and a member list: exactly these. |
| Validations.EditGroupAccepts | lib/validations.ts:135-149 | The name and bio bounds apply only when present; userId is always required, with 36 characters. |
| Validations.UserGroupQueryAccepts | lib/validations.ts:151-155 | page, search and size are optional strings. |
| Validations.UpdateGroupAccepts | lib/validations.ts:157-162 | Every field is an optional string. |
| Validations.AdminUserAccepts | lib/validations.ts:164-171 | creatorId and memberId have 36 characters. |
| Validations.MembersAccepts | lib/validations.ts:173-180 | A members list is required. |
| Validations.GroupMembersQueryAccepts | lib/validations.ts:182-184 | page is an optional string. |
| Validations.JoinGroupAccepts | lib/validations.ts:186-190 | userId has 36 characters. |
| Validations.LeaveGroupAccepts | lib/validations.ts:191-195 | userId has 36 characters. |
| Validations.RemoveMemberAccepts | lib/validations.ts:197-204 | memberId and adminId have 36 characters. |
| Validations.GroupSchemaIgnoresUserId | lib/validations.ts:119-133 | Removing `userId` from a valid group body leaves it valid, so the schema never guarantees a `userId`. |
| Validations.SampleGroupBodyValid | lib/validations.ts:119-133 | A concrete body meets every group field rule and has no userId. |
| Validations.GroupBodyWithoutUserId | lib/validations.ts:124-126 | That body passes `groupSchema` although it has no `userId`, which the create handler reads. |
| AuthSchemas.SameAsValidations | zodSchemas/authSchemas.ts:3-41 | The auth schema equals the one in `lib/validations.ts`; register, login and on-boarding wrap those schemas under `body`. |
| AuthSchemas.UserRegisterAccepts | zodSchemas/authSchemas.ts:3-16 | The request passes exactly when `body` has a 4 to 20 character username, an e-mail and a password of at least 8 characters. |
| AuthSchemas.UserLoginAccepts | zodSchemas/authSchemas.ts:18-20 | The request passes exactly when `body` has an e-mail and a password of at least 8 characters; username is unconstrained. |
| AuthSchemas.RegisterImpliesLogin | zodSchemas/authSchemas.ts:14-20 | Every request that passes register passes login. |
| AuthSchemas.OnBoardingAccepts | zodSchemas/authSchemas.ts:22-41 | The request passes exactly when `body` meets the on-boarding rules. |
| AuthSchemas.QueryParamsAccepts | zodSchemas/authSchemas.ts:43-46 | postType and page are optional strings. |
| AuthSchemas.QueryParamsAcceptsEmpty | zodSchemas/authSchemas.ts:43-46 | An empty query passes. |
| AuthSchemas.FollowAccepts | zodSchemas/authSchemas.ts:48-50 | A followid string is required. |
| PostSchemas.IdParameterAccepts | zodSchemas/postSchemas.ts:3-11 | The request passes exactly when `params.id` has 36 characters. |
| PostSchemas.GeneralPostAccepts | zodSchemas/postSchemas.ts:14-24 | Title and content of at least 4 characters with no upper bound, and a 36-character authorId. |
| PostSchemas.PostAccepts | zodSchemas/postSchemas.ts:26-28 | The request passes exactly when `body` is a valid post. |
| PostSchemas.UpdatePostSchemaFields | zodSchemas/postSchemas.ts:30-32 | The update schema under `body` is exactly title and content, with no authorId. |
| PostSchemas.UpdateBodyAccepts | zodSchemas/postSchemas.ts:30-32 | The picked body accepts exactly a title and a content of at least 4 characters each. |
| PostSchemas.UpdatePostAccepts | zodSchemas/postSchemas.ts:30-32 | The request passes exactly when `body` has a title and a content of at least 4 characters; authorId is not needed. |
| PostSchemas.PostImpliesUpdatePost | zodSchemas/postSchemas.ts:26-32 | Every request that passes the post schema passes the update schema. |
| RequestValidation.IssueMessages | middlewares/middleware.ts:34-37 | One message per issue, in issue order, each the issue's own message. |
| RequestValidation.IssueMessagesConcat | middlewares/middleware.ts:34-37 | The mapping distributes over concatenation, so order is preserved. |
| RequestValidation.LabelOfFieldIssue | middlewares/authMiddleware.ts:17 | A path under a request part, such as `["body","email"]`, is labelled by the field name, however deep it goes. |
| RequestValidation.LabelOfTopLevelIssue | middlewares/middleware.ts:35 | A one-element path is labelled by that element. |
| RequestValidation.LabelIgnoresDeeperPath | middlewares/middleware.ts:35 | Only the first two path elements decide the label. |
| RequestValidation.IssueMessageParts | middlewares/middleware.ts:35-36 | Each message is the label, then ": ", then zod's message. |
| RequestValidation.LabelOfArrayElementIssue | middlewares/middleware.ts:35 | For `["members", i, "userId"]` the label is the index i, not the field name. |
| RequestValidation.LabelOfRootIssue | middlewares/middleware.ts:35-36 | An empty path is labelled `undefined`. |
| Middleware.UnknownTypeIgnoresParser | middlewares/middleware.ts:24-27 | An unknown type answers 500, whatever the parser, and never calls `next()`. |
| Middleware.OnlySelectedPartMatters | middlewares/middleware.ts:14-31 | The decision depends only on the selected request part. |
| Middleware.NextIffParsed | middlewares/middleware.ts:30-31 | `next()` is called exactly when the type is known and the selected data parses. |
| Middleware.FailureAnswers | middlewares/middleware.ts:33-45 | A ZodError gives 400, "Invalid data" and one message per issue. Any other error gives 500 with no details. |
| Middleware.NextIffAccepted | middlewares/middleware.ts:14-40 | With a parser that implements a schema, `next()` is called exactly when the schema accepts the selected part. Every refusal is a 400. |
| AuthMiddleware.Wrap | middlewares/authMiddleware.ts:8-12 | The parsed object has exactly the keys body, query and params, holding the request's parts. |
| AuthMiddleware.NextIffParsed | middlewares/authMiddleware.ts:13 | `next()` is called exactly when the wrapped request parses. |
| AuthMiddleware.FailureAnswers | middlewares/authMiddleware.ts:15-27 | A ZodError gives 400, "Invalid data" and the mapped messages. Any other error gives 500 with no details. |
| AuthMiddleware.BodyFieldIssueMessage | middlewares/authMiddleware.ts:16-19 | An issue at `["body", f]` reads `f: message`. |
| AuthMiddleware.LoginNextIff | middlewares/authMiddleware.ts:8-13 | Under the login schema, `next()` is called exactly when the body has an e-mail and a password of at least 8 characters. |
| AuthMiddleware.RegisterNextIff | middlewares/authMiddleware.ts:8-13 | Under the register schema, `next()` is called exactly when the body has a 4 to 20 character username, an e-mail and a password of at least 8 characters. |
| AuthMiddleware.RefusalIsBadRequest | middlewares/authMiddleware.ts:15-22 | With a parser that implements a schema, every refusal is a 400. |
| Strings.ParseIntOfRendering | routes/user.ts:74 | `parseInt` reads back the decimal rendering of n when a non-digit follows. |
| Strings.ParseIntOfNegativeRendering | routes/user.ts:74 | `parseInt("-" + n)` is -n. |
| Strings.ParseIntSkipsWhiteSpace | routes/user.ts:74 | Leading white space does not change the result. |
| Strings.ParseIntOfHex | routes/user.ts:74 | After `0x` or `0X`, the hexadecimal digits up to the first character that is not one are read in radix 16; a prefix with no hexadecimal digit after it is `NaN`. |
| Strings.ParseIntOfNonNumber | routes/user.ts:74 | A string that starts with no sign, digit or white space gives `NaN`. |
| Strings.DigitsValueOfNatToString | routes/user.ts:74 | The decimal digits of n have the value n. |

## Left out

- Express and Prisma plumbing (routing, `res.json`, the query engine) is replaced by
  in-memory tables and result datatypes. HTTP statuses appear only in the middleware
  decisions.
- Database-generated group identifiers are a parameter of create, required to be fresh.
  The `isAdmin` and `isCreator` column defaults are constructor parameters, because the
  database schema is not part of this model.
- The unique constraints and the foreign key on `userId` of the membership table are not
  modelled; the membership table's foreign key on `groupId` is.
- The referential actions on deleting users are not modelled: delete-all leaves the
  follow table as it is.
- Rows are assumed to come back in insertion order. Posts with equal `createdAt` are kept
  in table order, which Prisma does not promise.
- Strings.ParseInt: returns an exact, unbounded integer, while JavaScript's `parseInt` returns a double.
  Above 2^53 the source rounds, so `9007199254740993` reads as 9007199254740992. Past about 1.8e308 the source yields `Infinity`, which makes `skip` infinite and most likely makes Prisma refuse the query. The model instead reads the exact number and, for a huge page, answers an empty page.
- Users.PageNumber: inherits that gap, so Users.PageOfRendering, Users.PageWindow, Users.PostOnItsPage and Strings.ParseIntOfRendering describe the source only for numbers below 2^53.
- Users.Upper: upper-cases ASCII letters only, not the full Unicode case mapping of
  `toUpperCase`.
- String lengths count characters (code points), while zod counts UTF-16 code units.
- Zod's e-mail format, the values of the `PostType` enumeration and `z.coerce.date()` are
  left abstract, as parameters (`Schemas.Env`).
- Zod's issue texts and issue paths are inputs, not computed from the schema.
- `schema.parse` is a parameter. An exception thrown by `next()` itself is not modelled.
- The other user routes (list all users, get one user with following and followers,
  delete one user) pass straight through to Prisma. Only the posts selection of the
  get-one route is modelled.
- DELETE `/delete-db-users` is shadowed by DELETE `/:id` in `routes/user.ts`. Route
  precedence is left out, and `DeleteAllUsers` models the handler as if it were reached.
- Leave, remove-member, promote and demote have schemas but no handler, so only their
  schemas are modelled.
- The authentication, post, profile and user-list route files, the server wiring, the
  seeding scripts and the logger are not part of this model.
- Concurrency between handlers (two joins or follows at once) is not modelled.

## Findings

| source | as written | input that shows it | evidently intended | confidence | as-written member | corrected member |
|---|---|---|---|---|---|---|
| routes/group.ts:104-110 | add-admins passes the array built by `members.map` to the single-row `prisma.groupUser.create` | any request, for example `members: [{userId: "u"}]` on an existing group | one admin row per entry, written with `createMany` | not executed | Groups.GroupStore.AddAdmins | Groups.GroupStore.AddAdminsWithCreateMany |
| routes/group.ts:24 | create reads `userId` from the body, but `groupSchema` (lib/validations.ts:124-126) requires `creatorId` and does not declare or check `userId` | the body `{name: "Rustaceans", bio: "We write Rust together.", creatorId: <36 characters>, members: []}` passes validation with no `userId`, so the creator row's create fails and the answer is a 500 | the creator row is written for `creatorId` | not executed | Groups.GroupStore.Create | Groups.GroupStore.CreateForCreator |
