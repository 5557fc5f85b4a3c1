/** The user handlers of `routes/user.ts` that carry rules of their own: the
    follow relation with its two guards, deleting every user, the paginated
    posts listing, and the newest post of each type on a user's page. */
module Users {
  import opened Common
  import opened Strings

  /** One `follow` row: `followerId` follows `followingId`. */
  datatype FollowRow = FollowRow(followerId: string, followingId: string)

  /** One post, with the columns the selections look at. */
  datatype Post = Post(id: string, authorId: string, postType: string, createdAt: int)

  /** How a handler ends: a 200 answer with a value, a 400 answer with a
      message, or a 500 answer after a thrown error. */
  datatype Reply<T> = Ok(value: T) | BadRequest(message: string) | InternalError

  const SelfFollowMessage := "You cannot follow yourself"
  const AlreadyFollowingMessage := "You are already following this user"
  const NoUsersMessage := "No users to delete"
  const UsersDeletedMessage := "Users deleted"

  /** Posts per page. */
  const PageSize: nat := 5
  /** Posts on a user's page. */
  const LatestTake: nat := 3

  // ---------------------------------------------------------------------
  // The follow relation

  /** The `where` of the duplicate check `findFirst({where: {followerId,
      followingId}})`: a `followingId` left `undefined` is ignored, so the
      filter then matches every row of the follower. */
  predicate MatchesWhere(followerId: string, followingId: Option<string>, f: FollowRow) {
    f.followerId == followerId && (followingId.None? || f.followingId == followingId.value)
  }

  function ExistingFollows(follows: seq<FollowRow>, followerId: string, followingId: Option<string>): (r: seq<FollowRow>)
    ensures r == [] <==> forall i :: 0 <= i < |follows| ==> !MatchesWhere(followerId, followingId, follows[i])
  {
    var p := (f: FollowRow) => MatchesWhere(followerId, followingId, f);
    FilterEmptyIff(follows, p);
    Filter(follows, p)
  }

  /** The follow table's invariant: nobody follows themselves and no pair
      is stored twice. */
  ghost predicate FollowsValid(follows: seq<FollowRow>) {
    && (forall i :: 0 <= i < |follows| ==> follows[i].followerId != follows[i].followingId)
    && (forall i, j :: 0 <= i < j < |follows| ==> follows[i] != follows[j])
  }

  /** The user table and the follow table. */
  class UserStore {
    var users: seq<string>
    var follows: seq<FollowRow>

    ghost predicate Valid()
      reads this
    {
      FollowsValid(follows)
    }

    constructor(users: seq<string>)
      ensures this.users == users && follows == []
      ensures Valid()
    {
      this.users := users;
      follows := [];
    }

    /** Follow: `followerId` comes from the path, `followingId` from the
        query, and may be missing. Following oneself and following twice
        are refused with 400; a missing or unknown user makes the
        `connect` throw; otherwise exactly the ordered pair is added. */
    method Follow(followerId: string, followingId: Option<string>) returns (r: Reply<FollowRow>)
      modifies this
      ensures followingId == Some(followerId) ==>
        r == BadRequest(SelfFollowMessage) && follows == old(follows)
      ensures followingId != Some(followerId) && ExistingFollows(old(follows), followerId, followingId) != [] ==>
        r == BadRequest(AlreadyFollowingMessage) && follows == old(follows)
      ensures (&& followingId != Some(followerId)
               && ExistingFollows(old(follows), followerId, followingId) == []
               && (followingId.None? || followerId !in users || followingId.value !in users)) ==>
        r == InternalError && follows == old(follows)
      ensures r.Ok? <==>
        && followingId.Some? && followingId.value != followerId
        && ExistingFollows(old(follows), followerId, followingId) == []
        && followerId in users && followingId.value in users
      ensures r.Ok? ==>
        && r.value == FollowRow(followerId, followingId.value)
        && follows == old(follows) + [r.value]
        && r.value !in old(follows)
        && (FollowRow(followingId.value, followerId) in follows <==> FollowRow(followingId.value, followerId) in old(follows))
      ensures users == old(users)
      ensures old(Valid()) ==> Valid()
    {
      if followingId == Some(followerId) {
        return BadRequest(SelfFollowMessage);
      }
      var existing := ExistingFollows(follows, followerId, followingId);
      if existing != [] {
        return BadRequest(AlreadyFollowingMessage);
      }
      if followingId.None? || followerId !in users || followingId.value !in users {
        return InternalError;
      }
      var row := FollowRow(followerId, followingId.value);
      assert forall i :: 0 <= i < |follows| ==> follows[i] != row by {
        forall i | 0 <= i < |follows|
          ensures follows[i] != row
        {
          assert !MatchesWhere(followerId, followingId, follows[i]);
        }
      }
      follows := follows + [row];
      r := Ok(row);
    }

    /** Delete all users: an empty table is reported and left alone;
        otherwise every user row is deleted. */
    method DeleteAllUsers() returns (message: string)
      modifies this
      ensures old(users) == [] ==> message == NoUsersMessage && users == old(users)
      ensures old(users) != [] ==> message == UsersDeletedMessage && users == []
      ensures follows == old(follows)
    {
      if |users| == 0 {
        return NoUsersMessage;
      }
      users := [];
      message := UsersDeletedMessage;
    }
  }

  // ---------------------------------------------------------------------
  // The posts listing

  /** The ASCII part of `toUpperCase`. */
  function UpperChar(c: char): char {
    if 'a' <= c <= 'z' then (c as int - 'a' as int + 'A' as int) as char else c
  }

  function Upper(s: string): (r: string)
    ensures |r| == |s|
    ensures forall i :: 0 <= i < |r| ==> !('a' <= r[i] <= 'z')
    ensures forall i :: 0 <= i < |s| ==>
      r[i] == if 'a' <= s[i] <= 'z' then (s[i] as int - 32) as char else s[i]
  {
    seq(|s|, i requires 0 <= i < |s| => UpperChar(s[i]))
  }

  /** The type filter: a string `postType` in upper case, unless it is
      empty, which as a falsy value means no filter. */
  function TypeFilter(postType: Option<string>): (r: Option<string>)
    ensures r.Some? <==> postType.Some? && postType.value != []
    ensures r.Some? ==> r.value == Upper(postType.value)
  {
    if postType.Some? && Upper(postType.value) != [] then Some(Upper(postType.value)) else None
  }

  /** `parseInt(page) || 1`: `NaN` and 0 are falsy and become 1. A missing
      `page` is `undefined`, which `parseInt` reads as the string
      `"undefined"`. */
  function PageNumber(page: Option<string>): (p: int)
    ensures p != 0
  {
    var n := ParseInt(if page.Some? then page.value else "undefined");
    if n.None? || n.value == 0 then 1 else n.value
  }

  /** `(page - 1) * pageSize`. */
  function Skip(page: int): int {
    (page - 1) * PageSize
  }

  predicate MatchesQuery(id: string, postType: Option<string>, p: Post) {
    p.authorId == id && (postType.None? || p.postType == postType.value)
  }

  /** The rows the query's `where` selects, in table order. */
  function Matching(posts: seq<Post>, id: string, postType: Option<string>): seq<Post> {
    Filter(posts, p => MatchesQuery(id, postType, p))
  }

  /** `skip` then `take`. */
  function Window<T>(s: seq<T>, skip: nat, take: nat): (r: seq<T>)
    ensures |r| <= take
    ensures |r| == if skip >= |s| then 0 else Min(take, |s| - skip)
    ensures forall i :: 0 <= i < |r| ==> skip + i < |s| && r[i] == s[skip + i]
  {
    if skip >= |s| then [] else s[skip..skip + Min(take, |s| - skip)]
  }

  function Min(a: nat, b: nat): nat {
    if a <= b then a else b
  }

  /** The posts listing. A type that is not a value of the post-type
      enumeration, and a negative `skip`, make Prisma throw. */
  function UserPosts(posts: seq<Post>, id: string, postType: Option<string>, page: Option<string>,
                     postTypes: set<string>): Reply<seq<Post>> {
    var t := TypeFilter(postType);
    var skip := Skip(PageNumber(page));
    if t.Some? && t.value !in postTypes then InternalError
    else if skip < 0 then InternalError
    else Ok(Window(Matching(posts, id, t), skip, PageSize))
  }

  // ---------------------------------------------------------------------
  // The newest post of each type

  ghost predicate NewestFirst(s: seq<Post>) {
    forall i, j :: 0 <= i < j < |s| ==> s[i].createdAt >= s[j].createdAt
  }

  /** A newest-first list is its newest post followed by a newest-first
      list of posts no newer than it. */
  lemma NewestFirstCons(x: Post, t: seq<Post>)
    ensures NewestFirst([x] + t) <==> NewestFirst(t) && forall y :: y in t ==> y.createdAt <= x.createdAt
  {
    var r := [x] + t;
    if NewestFirst(t) && forall y :: y in t ==> y.createdAt <= x.createdAt {
      forall i, j | 0 <= i < j < |r|
        ensures r[i].createdAt >= r[j].createdAt
      {
        assert r[j] == t[j - 1];
        if i > 0 {
          assert r[i] == t[i - 1];
        }
      }
    }
    if NewestFirst(r) {
      forall y | y in t
        ensures y.createdAt <= x.createdAt
      {
        var k :| 0 <= k < |t| && t[k] == y;
        assert r[0] == x && r[k + 1] == y;
      }
      forall i, j | 0 <= i < j < |t|
        ensures t[i].createdAt >= t[j].createdAt
      {
        assert r[i + 1] == t[i] && r[j + 1] == t[j];
      }
    }
  }

  /** Places `p` in a newest-first list, before the posts no newer than it. */
  function Insert(p: Post, s: seq<Post>): (r: seq<Post>)
    ensures multiset(r) == multiset(s) + multiset{p}
    ensures forall x :: x in r <==> x in s || x == p
    ensures NewestFirst(s) ==> NewestFirst(r)
  {
    if s == [] || p.createdAt >= s[0].createdAt then
      InsertAtFront(p, s);
      [p] + s
    else
      var rest := Insert(p, s[1..]);
      assert s == [s[0]] + s[1..];
      NewestFirstCons(s[0], s[1..]);
      NewestFirstCons(s[0], rest);
      [s[0]] + rest
  }

  lemma InsertAtFront(p: Post, s: seq<Post>)
    requires s == [] || p.createdAt >= s[0].createdAt
    ensures NewestFirst(s) ==> NewestFirst([p] + s)
  {
    if s != [] && NewestFirst(s) {
      assert s == [s[0]] + s[1..];
      NewestFirstCons(s[0], s[1..]);
    }
    NewestFirstCons(p, s);
  }

  /** `orderBy: {createdAt: "desc"}`: the same posts, newest first. */
  function SortNewestFirst(s: seq<Post>): (r: seq<Post>)
    ensures multiset(r) == multiset(s)
    ensures forall x :: x in r <==> x in s
    ensures NewestFirst(r)
  {
    if s == [] then []
    else
      assert s == [s[0]] + s[1..];
      Insert(s[0], SortNewestFirst(s[1..]))
  }

  /** The types of the posts of a list. */
  function TypesOf(s: seq<Post>): set<string> {
    set i | 0 <= i < |s| :: s[i].postType
  }

  /** `distinct: ["type"]`: the first post of each type not yet seen, in
      order. */
  function DistinctByType(s: seq<Post>, seen: set<string>): (r: seq<Post>)
    ensures forall x :: x in r ==> x in s && x.postType !in seen
    ensures forall i, j :: 0 <= i < j < |r| ==> r[i].postType != r[j].postType
    ensures forall x :: x in s ==> x.postType in seen || x.postType in TypesOf(r)
  {
    if s == [] then []
    else if s[0].postType in seen then
      assert s == [s[0]] + s[1..];
      DistinctByType(s[1..], seen)
    else
      var rest := DistinctByType(s[1..], seen + {s[0].postType});
      DistinctStep(s, seen, rest);
      [s[0]] + rest
  }

  lemma DistinctStep(s: seq<Post>, seen: set<string>, rest: seq<Post>)
    requires s != [] && s[0].postType !in seen
    requires forall x :: x in rest ==> x in s[1..] && x.postType !in seen + {s[0].postType}
    requires forall x :: x in s[1..] ==> x.postType in seen + {s[0].postType} || x.postType in TypesOf(rest)
    ensures forall x :: x in [s[0]] + rest ==> x in s && x.postType !in seen
    ensures forall i :: 0 <= i < |rest| ==> rest[i].postType != s[0].postType
    ensures forall x :: x in s ==> x.postType in seen || x.postType in TypesOf([s[0]] + rest)
  {
    var r := [s[0]] + rest;
    assert s == [s[0]] + s[1..];
    assert forall i :: 0 <= i < |rest| ==> rest[i] in rest;
    assert TypesOf(r) == {s[0].postType} + TypesOf(rest) by {
      forall t | t in TypesOf(rest)
        ensures t in TypesOf(r)
      {
        var k :| 0 <= k < |rest| && rest[k].postType == t;
        assert r[k + 1] == rest[k];
      }
      assert r[0] == s[0];
    }
  }

  /** On a newest-first list, distinct keeps the order, and each post kept
      is the newest of its type. */
  lemma {:induction false} DistinctOfNewestFirst(s: seq<Post>, seen: set<string>)
    requires NewestFirst(s)
    ensures var r := DistinctByType(s, seen);
      && NewestFirst(r)
      && forall y, x :: y in r && x in s && x.postType == y.postType ==> x.createdAt <= y.createdAt
  {
    if s != [] {
      assert s == [s[0]] + s[1..];
      NewestFirstCons(s[0], s[1..]);
      if s[0].postType in seen {
        DistinctOfNewestFirst(s[1..], seen);
      } else {
        var rest := DistinctByType(s[1..], seen + {s[0].postType});
        DistinctOfNewestFirst(s[1..], seen + {s[0].postType});
        NewestFirstCons(s[0], rest);
      }
    }
  }

  predicate AuthoredBy(id: string, p: Post) {
    p.authorId == id
  }

  /** The user's own posts, newest first. */
  function OwnNewestFirst(posts: seq<Post>, id: string): (r: seq<Post>)
    ensures forall x :: x in r <==> x in posts && x.authorId == id
    ensures NewestFirst(r)
  {
    var p := (q: Post) => AuthoredBy(id, q);
    FilterMembershipAll(posts, p);
    SortNewestFirst(Filter(posts, p))
  }

  /** The posts shown on a user's page: the user's posts newest first, the
      first of each type, at most three. */
  function LatestPerType(posts: seq<Post>, id: string): seq<Post> {
    var d := DistinctByType(OwnNewestFirst(posts, id), {});
    if |d| <= LatestTake then d else d[..LatestTake]
  }

  // ---------------------------------------------------------------------
  // Properties of the selections

  /** The listing fails exactly for an unknown type or a page below 1; when
      it answers, it answers with at most five of the author's posts, of the
      requested type, the window at the page's offset of the matching
      posts. */
  lemma UserPostsSpec(posts: seq<Post>, id: string, postType: Option<string>, page: Option<string>,
                      postTypes: set<string>)
    ensures var r := UserPosts(posts, id, postType, page, postTypes);
      var t := TypeFilter(postType);
      && !r.BadRequest?
      && (r.InternalError? <==> (t.Some? && t.value !in postTypes) || PageNumber(page) < 1)
      && (r.Ok? ==> r.value == Window(Matching(posts, id, t), (PageNumber(page) - 1) * PageSize, PageSize))
      && (r.Ok? ==> |r.value| <= PageSize)
      && (r.Ok? ==> forall i :: 0 <= i < |r.value| ==>
            r.value[i] in posts && r.value[i].authorId == id
            && (t.Some? ==> r.value[i].postType == t.value))
  {
    var t := TypeFilter(postType);
    var p := PageNumber(page);
    if p >= 1 {
      WindowOfMatching(posts, id, t, (p - 1) * PageSize);
    }
  }

  /** Any window of the matching posts holds only the author's posts of the
      filtered type. */
  lemma WindowOfMatching(posts: seq<Post>, id: string, t: Option<string>, skip: nat)
    ensures var w := Window(Matching(posts, id, t), skip, PageSize);
      forall i :: 0 <= i < |w| ==> w[i] in posts && w[i].authorId == id && (t.Some? ==> w[i].postType == t.value)
  {
    var m := Matching(posts, id, t);
    var w := Window(m, skip, PageSize);
    forall i | 0 <= i < |w|
      ensures w[i] in posts && w[i].authorId == id && (t.Some? ==> w[i].postType == t.value)
    {
      assert w[i] == m[skip + i];
    }
  }

  /** A missing, unparsable or zero page is page 1. */
  lemma PageDefaults(s: string)
    requires ParseInt(s).None?
    ensures PageNumber(None) == 1
    ensures PageNumber(Some(s)) == 1
    ensures PageNumber(Some("0")) == 1
  {
    ParseIntOfNonNumber("undefined");
    ParseIntOfRendering(0, []);
    assert NatToString(0) + [] == "0";
  }

  /** The decimal rendering of a positive number is that page. */
  lemma PageOfRendering(n: nat)
    requires n >= 1
    ensures PageNumber(Some(NatToString(n))) == n
  {
    var z := NatToString(n);
    ParseIntOfRendering(n, []);
    assert z + [] == z;
    PageOfParsed(z, n);
  }

  /** A negative number is a page whose offset is negative. */
  lemma PageOfNegativeRendering(n: nat)
    requires n >= 1
    ensures PageNumber(Some("-" + NatToString(n))) == -(n as int)
  {
    ParseIntOfNegativeRendering(n);
    PageOfParsed("-" + NatToString(n), -(n as int));
  }

  /** A page that `parseInt` reads as a number other than 0 is that number. */
  lemma PageOfParsed(s: string, n: int)
    requires ParseInt(s) == Some(n) && n != 0
    ensures PageNumber(Some(s)) == n
  {
  }

  /** Page `n` is the window of five at offset `5 * (n - 1)`. */
  lemma PageWindow(posts: seq<Post>, id: string, postType: Option<string>, postTypes: set<string>, n: nat)
    requires n >= 1
    requires TypeFilter(postType).Some? ==> TypeFilter(postType).value in postTypes
    ensures UserPosts(posts, id, postType, Some(NatToString(n)), postTypes)
      == Ok(Window(Matching(posts, id, TypeFilter(postType)), (n - 1) * PageSize, PageSize))
  {
    PageOfRendering(n);
  }

  /** Every matching post is on its page: the post at position
      `5 * q + m`, for `m < 5`, is the `m`-th post of page `q + 1`. */
  lemma PostOnItsPage(posts: seq<Post>, id: string, postType: Option<string>, postTypes: set<string>, q: nat, m: nat)
    requires TypeFilter(postType).Some? ==> TypeFilter(postType).value in postTypes
    requires m < PageSize && q * PageSize + m < |Matching(posts, id, TypeFilter(postType))|
    ensures var r := UserPosts(posts, id, postType, Some(NatToString(q + 1)), postTypes);
      r.Ok? && m < |r.value| && r.value[m] == Matching(posts, id, TypeFilter(postType))[q * PageSize + m]
  {
    PageWindow(posts, id, postType, postTypes, q + 1);
  }

  /** A negative page ends in a 500 answer. */
  lemma NegativePageFails(posts: seq<Post>, id: string, postType: Option<string>, postTypes: set<string>, n: nat)
    requires n >= 1
    ensures UserPosts(posts, id, postType, Some("-" + NatToString(n)), postTypes) == InternalError
  {
    PageOfNegativeRendering(n);
  }

  /** The user's page shows at most three of the user's own posts, of
      pairwise different types; fewer than three only when they cover every
      type the user has posted in. */
  lemma LatestPerTypeShape(posts: seq<Post>, id: string)
    ensures var r := LatestPerType(posts, id);
      && |r| <= LatestTake
      && (forall i :: 0 <= i < |r| ==> r[i] in posts && r[i].authorId == id)
      && (forall i, j :: 0 <= i < j < |r| ==> r[i].postType != r[j].postType)
      && (|r| < LatestTake ==> forall x :: x in posts && x.authorId == id ==> x.postType in TypesOf(r))
  {
    var d := DistinctByType(OwnNewestFirst(posts, id), {});
    var r := LatestPerType(posts, id);
    assert forall i :: 0 <= i < |r| ==> r[i] == d[i] && d[i] in d;
  }

  /** The user's page is newest first, and each post on it is the newest
      post of its type. */
  lemma LatestPerTypeNewest(posts: seq<Post>, id: string)
    ensures var r := LatestPerType(posts, id);
      && NewestFirst(r)
      && (forall i, x :: 0 <= i < |r| && x in posts && x.authorId == id && x.postType == r[i].postType ==>
            x.createdAt <= r[i].createdAt)
  {
    var own := OwnNewestFirst(posts, id);
    var d := DistinctByType(own, {});
    var r := LatestPerType(posts, id);
    DistinctOfNewestFirst(own, {});
    TakeKeeps(d, r);
    forall i, x | 0 <= i < |r| && x in posts && x.authorId == id && x.postType == r[i].postType
      ensures x.createdAt <= r[i].createdAt
    {
      assert r[i] in r && r[i] in d;
      assert x in own;
    }
  }

  /** When the page is full, it shows the three types posted in most
      recently: a post of any type left off is no newer than the last post
      shown. */
  lemma LatestPerTypeMostRecent(posts: seq<Post>, id: string)
    ensures var r := LatestPerType(posts, id);
      |r| == LatestTake ==>
        forall x :: x in posts && x.authorId == id && x.postType !in TypesOf(r) ==>
          x.createdAt <= r[LatestTake - 1].createdAt
  {
    var own := OwnNewestFirst(posts, id);
    var d := DistinctByType(own, {});
    var r := LatestPerType(posts, id);
    DistinctOfNewestFirst(own, {});
    if |r| == LatestTake {
      assert r == d[..LatestTake];
      forall x | x in posts && x.authorId == id && x.postType !in TypesOf(r)
        ensures x.createdAt <= r[LatestTake - 1].createdAt
      {
        assert x in own;
        PrefixBound(d, x, LatestTake);
      }
    }
  }

  /** A post whose type a newest-first list shows only after its first `k`
      entries is no newer than the `k`-th entry, when every entry is the
      newest of its type. */
  lemma PrefixBound(d: seq<Post>, x: Post, k: nat)
    requires NewestFirst(d) && 0 < k <= |d|
    requires x.postType in TypesOf(d) && x.postType !in TypesOf(d[..k])
    requires forall y :: y in d && y.postType == x.postType ==> x.createdAt <= y.createdAt
    ensures x.createdAt <= d[k - 1].createdAt
  {
    var j :| 0 <= j < |d| && d[j].postType == x.postType;
    assert forall i :: 0 <= i < k ==> d[..k][i] == d[i] && d[i].postType in TypesOf(d[..k]);
    assert j >= k;
    assert d[j] in d;
  }

  /** A prefix of a newest-first list is newest first. */
  lemma TakeKeeps(d: seq<Post>, r: seq<Post>)
    requires |r| <= |d| && r == d[..|r|]
    ensures NewestFirst(d) ==> NewestFirst(r)
    ensures forall x :: x in r ==> x in d
  {
    assert forall i :: 0 <= i < |r| ==> r[i] == d[i];
  }

  lemma FilterMembershipAll<T>(s: seq<T>, p: T -> bool)
    ensures forall x :: x in Filter(s, p) <==> x in s && p(x)
  {
    forall x
      ensures x in Filter(s, p) <==> x in s && p(x)
    {
      FilterMembership(s, p, x);
    }
  }

  lemma FilterEmptyIff<T>(s: seq<T>, p: T -> bool)
    ensures Filter(s, p) == [] <==> forall i :: 0 <= i < |s| ==> !p(s[i])
  {
    if Filter(s, p) == [] {
      forall i | 0 <= i < |s|
        ensures !p(s[i])
      {
        FilterMembership(s, p, s[i]);
      }
    } else {
      var x := Filter(s, p)[0];
      FilterMembership(s, p, x);
      var i :| 0 <= i < |s| && s[i] == x;
    }
    if forall i :: 0 <= i < |s| ==> !p(s[i]) {
      FilterNone(s, p);
    }
  }
}
