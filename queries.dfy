/** The read-only handlers: `getMyGroups`, `getGroupsMember`,
    `getGroupMembers` (controllers/groups.js), `getGroupMessages`
    (controllers/messages.js) and `getUsers` (controllers/user.js). Each is
    a filter of one table, possibly joined with group_members, and a
    projection of the columns sent back. */
module Queries {
  import opened Http
  import opened Seqs
  import opened Schema
  import opened Ordering

  /** The `attributes: ['id', 'name', 'email']` of a member listing. */
  datatype MemberView = MemberView(id: Id, name: string, email: string)
  /** The `attributes: ['id', 'name', 'email', 'isAdmin']` of the user listing. */
  datatype UserRow = UserRow(id: Id, name: string, email: string, isAdmin: bool)

  /** A query's data, or the status that replaces it. */
  datatype Answer<T> = Found(data: T) | Missing(code: Status)

  /** `getMyGroups`: `findAll({ where: { ownerId } })`. */
  function OwnedGroups(groups: seq<Group>, uid: Id): (r: seq<Group>)
    ensures forall g :: g in r <==> g in groups && g.ownerId == uid
  {
    Filter(groups, (g: Group) => g.ownerId == uid)
  }

  /** `getGroupsMember`: the caller's row with its `memberGroups`; 404 when
      the caller's row is gone. Each group appears once, however many
      membership rows point at it. */
  function MemberGroups(t: Tables, uid: Id): (r: Answer<seq<Group>>)
    ensures r.Missing? <==> uid !in UserIds(t.users)
    ensures r.Missing? ==> r.code == NotFound
    ensures r.Found? ==> forall g :: g in r.data <==> g in t.groups && IsMember(t.members, g.id, uid)
    ensures r.Found? && DistinctKeys(t.groups, GroupKey) ==> DistinctKeys(r.data, GroupKey)
  {
    if FindUser(t.users, uid).None? then Missing(NotFound)
    else
      var keep := (g: Group) => IsMember(t.members, g.id, uid);
      if DistinctKeys(t.groups, GroupKey) then FilterKeepsKeysDistinct(t.groups, keep, GroupKey); Found(Filter(t.groups, keep))
      else Found(Filter(t.groups, keep))
  }

  function ViewOf(u: User): MemberView {
    MemberView(u.id, u.name, u.email)
  }

  function ViewKey(v: MemberView): int { v.id }

  function Views(us: seq<User>): (r: seq<MemberView>)
    ensures |r| == |us|
    ensures forall i :: 0 <= i < |us| ==> r[i] == ViewOf(us[i])
  {
    seq(|us|, i requires 0 <= i < |us| => ViewOf(us[i]))
  }

  /** `getGroupMembers`: 404 for a missing group; otherwise the users that
      have a membership row for the group, cut down to id, name and email. */
  function GroupMembers(t: Tables, gid: Id): (r: Answer<seq<MemberView>>)
    ensures r.Missing? <==> gid !in GroupIds(t.groups)
    ensures r.Missing? ==> r.code == NotFound
    ensures r.Found? ==> forall v :: v in r.data <==>
      exists u :: u in t.users && IsMember(t.members, gid, u.id) && v == ViewOf(u)
    ensures r.Found? && DistinctKeys(t.users, UserKey) ==> DistinctKeys(r.data, ViewKey)
  {
    if FindGroup(t.groups, gid).None? then Missing(NotFound)
    else
      var keep := (u: User) => IsMember(t.members, gid, u.id);
      var us := Filter(t.users, keep);
      ViewsOf(us);
      ViewsKeepIds(us);
      if DistinctKeys(t.users, UserKey) then FilterKeepsKeysDistinct(t.users, keep, UserKey); Found(Views(us))
      else Found(Views(us))
  }

  /** Projecting users to views keeps their ids distinct. */
  lemma ViewsKeepIds(us: seq<User>)
    ensures DistinctKeys(us, UserKey) ==> DistinctKeys(Views(us), ViewKey)
  {
    var vs := Views(us);
    assert forall i :: 0 <= i < |vs| ==> ViewKey(vs[i]) == UserKey(us[i]);
  }

  /** A view is listed exactly when some listed user has it. */
  lemma ViewsOf(us: seq<User>)
    ensures forall v :: v in Views(us) <==> exists u :: u in us && v == ViewOf(u)
  {
    var vs := Views(us);
    forall v | v in vs ensures exists u :: u in us && v == ViewOf(u) {
      var i :| 0 <= i < |vs| && vs[i] == v;
      assert us[i] in us;
    }
    forall u | u in us ensures ViewOf(u) in vs {
      var i :| 0 <= i < |us| && us[i] == u;
      assert vs[i] == ViewOf(u);
    }
  }

  /** `getGroupMessages`: every message of the group and no other,
      `order: [['createdAt', 'DESC']]`. */
  function GroupMessages(messages: seq<Message>, gid: Id): (r: seq<Message>)
    ensures forall m :: m in r <==> m in messages && m.groupId == gid
    ensures forall m :: multiset(r)[m] == if m.groupId == gid then multiset(messages)[m] else 0
    ensures forall i, j :: 0 <= i < j < |r| ==> r[i].createdAt >= r[j].createdAt
  {
    var keep := (m: Message) => m.groupId == gid;
    var mine := Filter(messages, keep);
    forall m ensures multiset(mine)[m] == if m.groupId == gid then multiset(messages)[m] else 0 {
      FilterCount(messages, keep, m);
    }
    var r := NewestFirst(mine);
    assert forall m :: m in r <==> m in multiset(mine);
    r
  }

  function RowOf(u: User): UserRow {
    UserRow(u.id, u.name, u.email, u.isAdmin)
  }

  /** `getUsers`: every user, without the password hash, in table order:
      one row per user, listing exactly the ids in the table, each row
      carrying its user's name, email and admin flag. */
  function UserList(users: seq<User>): (r: seq<UserRow>)
    ensures |r| == |users|
    ensures forall i :: 0 <= i < |r| ==> r[i].id == users[i].id
    ensures forall id :: (exists i :: 0 <= i < |r| && r[i].id == id) <==> FindUser(users, id).Some?
    ensures forall u :: u in users ==> UserRow(u.id, u.name, u.email, u.isAdmin) in r
    ensures forall x :: x in r ==> exists u :: u in users && u.id == x.id && u.name == x.name && u.email == x.email && u.isAdmin == x.isAdmin
  {
    var r := seq(|users|, i requires 0 <= i < |users| => RowOf(users[i]));
    forall id | (exists i :: 0 <= i < |r| && r[i].id == id) ensures FindUser(users, id).Some? {
      var i :| 0 <= i < |r| && r[i].id == id;
      assert users[i] in users;
    }
    forall id | FindUser(users, id).Some? ensures exists i :: 0 <= i < |r| && r[i].id == id {
      var i :| 0 <= i < |users| && users[i] == FindUser(users, id).value;
      assert r[i].id == id;
    }
    forall u | u in users ensures RowOf(u) in r {
      var i :| 0 <= i < |users| && users[i] == u;
      assert r[i] == RowOf(u);
    }
    forall x | x in r ensures exists u :: u in users && RowOf(u) == x {
      var i :| 0 <= i < |r| && r[i] == x;
      assert users[i] in users;
    }
    r
  }
}
