/** The group handlers of `routes/group.ts`, over an in-memory copy of the
    two tables they use: the groups, keyed by identifier, and the
    membership rows (`groupUser`) in insertion order. */
module Groups {
  import opened Common

  datatype Group = Group(
    id: string,
    name: string,
    bio: string,
    profileImage: Option<string>,
    coverImage: Option<string>)

  /** One `groupUser` row. */
  datatype Membership = Membership(userId: string, groupId: string, isAdmin: bool, isCreator: bool)

  /** One entry of a request's `members` list. */
  datatype MemberEntry = MemberEntry(userId: string, isAdmin: Option<bool>)

  /** How a handler ends. `NoResponse` is a handler that returns without
      answering, which leaves the request hanging. */
  datatype Outcome<T> = Ok(value: T) | NotFound | Unauthorized | InternalError | NoResponse

  /** The `data` argument of a single-row `create`: one row, or (wrongly)
      a list of rows. */
  datatype CreateData = OneRow(row: Membership) | RowList(rows: seq<Membership>)

  /** The outcome of the edit handler's permission check. */
  datatype Gate = Allowed | Denied | Crashed

  predicate InGroup(g: string, m: Membership) {
    m.groupId == g
  }

  predicate AdminOf(g: string, m: Membership) {
    m.groupId == g && m.isAdmin
  }

  /** The rows of one group, in insertion order: `findMany({where: {groupId}})`. */
  function MembersOf(rows: seq<Membership>, g: string): seq<Membership> {
    Filter(rows, m => InGroup(g, m))
  }

  /** The admin rows of one group: `findMany({where: {groupId, isAdmin: true}})`. */
  function AdminsOf(rows: seq<Membership>, g: string): seq<Membership> {
    Filter(rows, m => AdminOf(g, m))
  }

  /** The rows `createMany` gets from the add-members handler: one per entry,
      in order, with the entry's user, the group from the path, and the
      entry's `isAdmin` or, when that is missing, the column default. */
  function MemberRows(entries: seq<MemberEntry>, g: string, adminDefault: bool, creatorDefault: bool): (r: seq<Membership>)
    ensures |r| == |entries|
    ensures forall i :: 0 <= i < |r| ==>
      r[i].userId == entries[i].userId && r[i].groupId == g && r[i].isCreator == creatorDefault
      && (entries[i].isAdmin.Some? ==> r[i].isAdmin == entries[i].isAdmin.value)
      && (entries[i].isAdmin.None? ==> r[i].isAdmin == adminDefault)
  {
    seq(|entries|, i requires 0 <= i < |entries| =>
      Membership(entries[i].userId, g, entries[i].isAdmin.GetOr(adminDefault), creatorDefault))
  }

  /** The rows the add-admins handler builds: every one an admin row,
      whatever the entry's `isAdmin` says. */
  function AdminRows(entries: seq<MemberEntry>, g: string, creatorDefault: bool): (r: seq<Membership>)
    ensures |r| == |entries|
    ensures forall i :: 0 <= i < |r| ==> r[i].userId == entries[i].userId && r[i].groupId == g && r[i].isAdmin
  {
    seq(|entries|, i requires 0 <= i < |entries| => Membership(entries[i].userId, g, true, creatorDefault))
  }

  /** A partial `update`: a field left `undefined` keeps its value. */
  function Patch(g: Group, name: Option<string>, bio: Option<string>,
                 profileImage: Option<string>, coverImage: Option<string>): (r: Group)
    ensures r.id == g.id
    ensures r.name == (if name.Some? then name.value else g.name)
    ensures r.bio == (if bio.Some? then bio.value else g.bio)
    ensures r.profileImage == (if profileImage.Some? then profileImage else g.profileImage)
    ensures r.coverImage == (if coverImage.Some? then coverImage else g.coverImage)
  {
    Group(g.id, name.GetOr(g.name), bio.GetOr(g.bio),
      if profileImage.Some? then profileImage else g.profileImage,
      if coverImage.Some? then coverImage else g.coverImage)
  }

  /** The edit handler's check `groupFound?.groupUser[0].userId !== userId`:
      a missing group makes the left side `undefined`, so the check refuses;
      a group without rows makes `groupUser[0]` undefined, so reading its
      `userId` throws. */
  function EditGate(groups: map<string, Group>, rows: seq<Membership>, id: string, userId: string): Gate {
    if id !in groups then Denied
    else if MembersOf(rows, id) == [] then Crashed
    else if MembersOf(rows, id)[0].userId != userId then Denied
    else Allowed
  }

  /** The state every handler keeps: the map is keyed by group identifier,
      every row belongs to an existing group (the foreign key), and the
      first row of every group is its creator's, an admin row. */
  ghost predicate ValidState(groups: map<string, Group>, rows: seq<Membership>) {
    && (forall g :: g in groups ==> groups[g].id == g)
    && (forall i :: 0 <= i < |rows| ==> rows[i].groupId in groups)
    && (forall g :: g in groups ==> CreatorLeads(rows, g))
  }

  ghost predicate CreatorLeads(rows: seq<Membership>, g: string) {
    var ms := MembersOf(rows, g);
    |ms| > 0 && ms[0].isCreator && ms[0].isAdmin
  }

  // ---------------------------------------------------------------------
  // Properties of the tables

  /** A group's rows are exactly the rows with its identifier. */
  lemma MembersOfExactly(rows: seq<Membership>, g: string, m: Membership)
    ensures m in MembersOf(rows, g) <==> m in rows && m.groupId == g
  {
    FilterMembership(rows, m => InGroup(g, m), m);
  }

  /** A group's admins are exactly its rows marked admin. */
  lemma AdminsOfExactly(rows: seq<Membership>, g: string, m: Membership)
    ensures m in AdminsOf(rows, g) <==> m in rows && m.groupId == g && m.isAdmin
  {
    FilterMembership(rows, m => AdminOf(g, m), m);
  }

  /** Every admin row is a member row: as multisets, the admins of a group
      are contained in its members. */
  lemma AdminsAreMembers(rows: seq<Membership>, g: string)
    ensures multiset(AdminsOf(rows, g)) <= multiset(MembersOf(rows, g))
  {
    FilterStronger(rows, m => InGroup(g, m), m => AdminOf(g, m));
  }

  /** Appended rows come after a group's existing rows. */
  lemma MembersOfAppend(rows: seq<Membership>, extra: seq<Membership>, g: string)
    ensures MembersOf(rows + extra, g) == MembersOf(rows, g) + MembersOf(extra, g)
  {
    FilterConcat(rows, extra, m => InGroup(g, m));
  }

  /** Appending rows of existing groups keeps the state valid: the first row
      of every group stays where it was. */
  lemma AppendKeepsValid(groups: map<string, Group>, rows: seq<Membership>, extra: seq<Membership>)
    requires ValidState(groups, rows)
    requires forall i :: 0 <= i < |extra| ==> extra[i].groupId in groups
    ensures ValidState(groups, rows + extra)
  {
    forall g | g in groups
      ensures CreatorLeads(rows + extra, g)
    {
      MembersOfAppend(rows, extra, g);
      assert CreatorLeads(rows, g);
    }
  }

  /** In a valid state the edit check passes only for the group's creator:
      whoever passes holds a creator row, an admin row, of that group. */
  lemma GateAllowsOnlyCreator(groups: map<string, Group>, rows: seq<Membership>, id: string, userId: string)
    requires ValidState(groups, rows)
    requires EditGate(groups, rows, id, userId) == Allowed
    ensures Membership(userId, id, true, true) in rows
  {
    assert CreatorLeads(rows, id);
    var first := MembersOf(rows, id)[0];
    MembersOfExactly(rows, id, first);
  }

  /** In a valid state the check never crashes, and it refuses exactly the
      requesters other than whoever holds the group's first row. */
  lemma GateInValidState(groups: map<string, Group>, rows: seq<Membership>, id: string, userId: string)
    requires ValidState(groups, rows)
    ensures EditGate(groups, rows, id, userId) != Crashed
    ensures id in groups ==>
      (EditGate(groups, rows, id, userId) == Allowed <==> MembersOf(rows, id)[0].userId == userId)
  {
    if id in groups {
      assert CreatorLeads(rows, id);
    }
  }

  /** The group store: the two tables and the membership columns' default
      values, which the database schema supplies. */
  class GroupStore {
    var groups: map<string, Group>
    var rows: seq<Membership>
    const adminDefault: bool
    const creatorDefault: bool

    ghost predicate Valid()
      reads this
    {
      ValidState(groups, rows)
    }

    constructor(adminDefault: bool, creatorDefault: bool)
      ensures groups == map[] && rows == []
      ensures this.adminDefault == adminDefault && this.creatorDefault == creatorDefault
      ensures Valid()
    {
      groups := map[];
      rows := [];
      this.adminDefault := adminDefault;
      this.creatorDefault := creatorDefault;
    }

    /** `prisma.groupUser.create({data})`: a single row is inserted when its
        group exists; a missing group violates the foreign key, and a list
        of rows is not a valid argument: both throw. */
    method InsertOne(data: CreateData) returns (ok: bool)
      modifies this
      ensures ok <==> data.OneRow? && data.row.groupId in old(groups)
      ensures ok ==> rows == old(rows) + [data.row]
      ensures !ok ==> rows == old(rows)
      ensures groups == old(groups)
      ensures old(Valid()) ==> Valid()
    {
      match data
      case RowList(_) =>
        ok := false;
      case OneRow(row) =>
        if row.groupId in groups {
          AppendKeepsValidIfValid(groups, rows, [row]);
          rows := rows + [row];
          ok := true;
        } else {
          ok := false;
        }
    }

    /** `prisma.groupUser.createMany({data})`: all rows are inserted, in
        order, when every one of them names an existing group; otherwise
        the statement fails as a whole. */
    method InsertMany(data: seq<Membership>) returns (ok: bool)
      modifies this
      ensures ok <==> forall i :: 0 <= i < |data| ==> data[i].groupId in old(groups)
      ensures ok ==> rows == old(rows) + data
      ensures !ok ==> rows == old(rows)
      ensures groups == old(groups)
      ensures old(Valid()) ==> Valid()
    {
      ok := forall i :: 0 <= i < |data| ==> data[i].groupId in groups;
      if !ok {
        return;
      }
      AppendKeepsValidIfValid(groups, rows, data);
      var i := 0;
      while i < |data|
        invariant 0 <= i <= |data|
        invariant rows == old(rows) + data[..i]
        invariant groups == old(groups)
      {
        rows := rows + [data[i]];
        assert data[..i + 1] == data[..i] + [data[i]];
        i := i + 1;
      }
      assert data[..i] == data;
    }

    /** Create as written: it reads the creator from the body's `userId`.
        The validated body has `creatorId` instead, so `userId` is normally
        `undefined`, and the nested row without a user makes Prisma throw
        before anything is written. */
    method Create(name: string, bio: string, profileImage: Option<string>, coverImage: Option<string>,
                  userId: Option<string>, newId: string) returns (r: Outcome<Group>)
      requires newId !in groups
      modifies this
      ensures userId.None? ==> r == InternalError && groups == old(groups) && rows == old(rows)
      ensures userId.Some? ==>
        && r == Ok(Group(newId, name, bio, profileImage, coverImage))
        && groups == old(groups)[newId := r.value]
        && rows == old(rows) + [Membership(userId.value, newId, true, true)]
      ensures old(Valid()) ==> Valid()
    {
      if userId.None? {
        return InternalError;
      }
      r := CreateForCreator(name, bio, profileImage, coverImage, userId.value, newId);
    }

    /** Create as intended: the group and its creator's row, an admin and
        creator row, for the `creatorId` the schema requires. */
    method CreateForCreator(name: string, bio: string, profileImage: Option<string>,
                            coverImage: Option<string>, creatorId: string, newId: string)
      returns (r: Outcome<Group>)
      requires newId !in groups
      modifies this
      ensures r == Ok(Group(newId, name, bio, profileImage, coverImage))
      ensures groups == old(groups)[newId := r.value]
      ensures rows == old(rows) + [Membership(creatorId, newId, true, true)]
      ensures old(Valid()) ==> Valid()
    {
      var group := Group(newId, name, bio, profileImage, coverImage);
      var row := Membership(creatorId, newId, true, true);
      CreateKeepsValidIfValid(groups, rows, group, row);
      groups := groups[newId := group];
      rows := rows + [row];
      r := Ok(group);
    }

    /** Add members: a missing group is answered with NotFound and nothing
        changes; otherwise one row per entry is appended, in order, and the
        answer is the number of rows created. The caller's role is not
        checked. */
    method AddMembers(groupId: string, entries: seq<MemberEntry>) returns (r: Outcome<nat>)
      modifies this
      ensures groupId !in old(groups) ==> r == NotFound && rows == old(rows)
      ensures groupId in old(groups) ==>
        r == Ok(|entries|) && rows == old(rows) + MemberRows(entries, groupId, adminDefault, creatorDefault)
      ensures groups == old(groups)
      ensures old(Valid()) ==> Valid()
    {
      if groupId !in groups {
        return NotFound;
      }
      var data := MemberRows(entries, groupId, adminDefault, creatorDefault);
      var ok := InsertMany(data);
      r := Ok(|data|);
    }

    /** Add admins as written: the admin rows are handed to the single-row
        `create`, which refuses a list, so every call ends in a 500 and
        writes nothing. */
    method AddAdmins(groupId: string, entries: seq<MemberEntry>) returns (r: Outcome<string>)
      modifies this
      ensures r == InternalError
      ensures rows == old(rows) && groups == old(groups)
    {
      var data := AdminRows(entries, groupId, creatorDefault);
      var ok := InsertOne(RowList(data));
      assert !ok;
      r := InternalError;
    }

    /** Add admins as intended: the same admin rows through `createMany`. */
    method AddAdminsWithCreateMany(groupId: string, entries: seq<MemberEntry>) returns (r: Outcome<nat>)
      modifies this
      ensures entries != [] && groupId !in old(groups) ==> r == InternalError && rows == old(rows)
      ensures entries == [] || groupId in old(groups) ==>
        r == Ok(|entries|) && rows == old(rows) + AdminRows(entries, groupId, creatorDefault)
      ensures groups == old(groups)
      ensures old(Valid()) ==> Valid()
    {
      var data := AdminRows(entries, groupId, creatorDefault);
      if entries != [] {
        assert data[0].groupId == groupId;
      }
      var ok := InsertMany(data);
      if !ok {
        return InternalError;
      }
      r := Ok(|data|);
    }

    /** Get admins: the group's admin rows. */
    function GetAdmins(groupId: string): (r: seq<Membership>)
      reads this
      ensures forall m :: m in r <==> m in rows && m.groupId == groupId && m.isAdmin
    {
      AdminsOfAllExactly(rows, groupId);
      AdminsOf(rows, groupId)
    }

    /** Get members: all the group's rows. */
    function GetMembers(groupId: string): (r: seq<Membership>)
      reads this
      ensures forall m :: m in r <==> m in rows && m.groupId == groupId
    {
      MembersOfAllExactly(rows, groupId);
      MembersOf(rows, groupId)
    }

    /** Get group: the group with its rows, or no answer at all when there is
        no such group. */
    function GetGroup(id: string): (r: Outcome<(Group, seq<Membership>)>)
      reads this
      ensures r.NoResponse? <==> id !in groups
      ensures r.Ok? <==> id in groups
      ensures r.Ok? ==> r.value.0 == groups[id] && r.value.1 == GetMembers(id)
    {
      if id in groups then Ok((groups[id], GetMembers(id))) else NoResponse
    }

    /** Edit group: refused unless the requester holds the group's first row;
        a permitted edit overwrites only the fields the body gives, of that
        group only. */
    method Edit(id: string, name: Option<string>, bio: Option<string>,
                profileImage: Option<string>, coverImage: Option<string>, userId: string)
      returns (r: Outcome<Group>)
      modifies this
      ensures EditGate(old(groups), old(rows), id, userId) == Denied ==> r == Unauthorized && groups == old(groups)
      ensures EditGate(old(groups), old(rows), id, userId) == Crashed ==> r == InternalError && groups == old(groups)
      ensures EditGate(old(groups), old(rows), id, userId) == Allowed ==>
        && r == Ok(Patch(old(groups)[id], name, bio, profileImage, coverImage))
        && groups == old(groups)[id := r.value]
      ensures rows == old(rows)
      ensures old(Valid()) ==> Valid()
    {
      var gate := EditGate(groups, rows, id, userId);
      if gate == Denied {
        return Unauthorized;
      } else if gate == Crashed {
        return InternalError;
      }
      var updated := Patch(groups[id], name, bio, profileImage, coverImage);
      ReplaceKeepsValidIfValid(groups, rows, id, updated);
      groups := groups[id := updated];
      r := Ok(updated);
    }

    /** Join: one row for the user, with the column defaults, whether or not
        the user already belongs to the group; a missing group violates the
        foreign key. */
    method Join(groupId: string, userId: string) returns (r: Outcome<Membership>)
      modifies this
      ensures groupId !in old(groups) ==> r == InternalError && rows == old(rows)
      ensures groupId in old(groups) ==>
        && r == Ok(Membership(userId, groupId, adminDefault, creatorDefault))
        && rows == old(rows) + [r.value]
        && |MembersOf(rows, groupId)| == |MembersOf(old(rows), groupId)| + 1
      ensures groups == old(groups)
      ensures old(Valid()) ==> Valid()
    {
      var row := Membership(userId, groupId, adminDefault, creatorDefault);
      var ok := InsertOne(OneRow(row));
      if !ok {
        return InternalError;
      }
      MembersOfAppend(old(rows), [row], groupId);
      FilterSingle(row, m => InGroup(groupId, m));
      r := Ok(row);
    }
  }

  // ---------------------------------------------------------------------
  // Helpers for the methods' proofs

  lemma MembersOfAllExactly(rows: seq<Membership>, g: string)
    ensures forall m :: m in MembersOf(rows, g) <==> m in rows && m.groupId == g
  {
    forall m
      ensures m in MembersOf(rows, g) <==> m in rows && m.groupId == g
    {
      MembersOfExactly(rows, g, m);
    }
  }

  lemma AdminsOfAllExactly(rows: seq<Membership>, g: string)
    ensures forall m :: m in AdminsOf(rows, g) <==> m in rows && m.groupId == g && m.isAdmin
  {
    forall m
      ensures m in AdminsOf(rows, g) <==> m in rows && m.groupId == g && m.isAdmin
    {
      AdminsOfExactly(rows, g, m);
    }
  }

  lemma AppendKeepsValidIfValid(groups: map<string, Group>, rows: seq<Membership>, extra: seq<Membership>)
    requires forall i :: 0 <= i < |extra| ==> extra[i].groupId in groups
    ensures ValidState(groups, rows) ==> ValidState(groups, rows + extra)
  {
    if ValidState(groups, rows) {
      AppendKeepsValid(groups, rows, extra);
    }
  }

  /** A new group with its creator row keeps the state valid. */
  lemma CreateKeepsValidIfValid(groups: map<string, Group>, rows: seq<Membership>, group: Group, row: Membership)
    requires group.id !in groups && row.groupId == group.id && row.isAdmin && row.isCreator
    ensures ValidState(groups, rows) ==> ValidState(groups[group.id := group], rows + [row])
  {
    if ValidState(groups, rows) {
      var groups' := groups[group.id := group];
      var rows' := rows + [row];
      forall g | g in groups'
        ensures CreatorLeads(rows', g)
      {
        MembersOfAppend(rows, [row], g);
        FilterSingle(row, m => InGroup(g, m));
        if g == group.id {
          NoRowsOfMissingGroup(groups, rows, g);
        } else {
          assert CreatorLeads(rows, g);
        }
      }
    }
  }

  /** A group that does not exist has no rows in a valid state. */
  lemma NoRowsOfMissingGroup(groups: map<string, Group>, rows: seq<Membership>, g: string)
    requires forall i :: 0 <= i < |rows| ==> rows[i].groupId in groups
    requires g !in groups
    ensures MembersOf(rows, g) == []
  {
    FilterNone(rows, m => InGroup(g, m));
  }

  /** Replacing a group's fields, keeping its identifier, keeps the state
      valid. */
  lemma ReplaceKeepsValidIfValid(groups: map<string, Group>, rows: seq<Membership>, id: string, g: Group)
    requires id in groups && g.id == groups[id].id
    ensures ValidState(groups, rows) ==> ValidState(groups[id := g], rows)
  {
  }
}
