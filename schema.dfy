/** The tables of the backend and the constraints its models declare:
    users, groups (models/groups.js), the group_members join table
    (models/groups.js) and messages (models/messages.js), together with
    the ON DELETE CASCADE rules that decide what a delete takes with it. */
module Schema {
  import opened Wrappers
  import opened Seqs

  /** Auto-incremented integer primary keys. */
  type Id = nat

  datatype User = User(id: Id, name: string, email: string, passhash: string, isAdmin: bool)
  datatype Group = Group(id: Id, name: string, ownerId: Id)
  /** One row of group_members; the table has no key of its own. */
  datatype Membership = Membership(groupId: Id, userId: Id)
  /** `createdAt` is the insertion time, a timestamp in milliseconds. */
  datatype Message = Message(id: Id, content: string, createdAt: nat, userId: Id, groupId: Id)

  /** The identity a signed token carries (the payload built at login). */
  datatype Claims = Claims(id: Id, name: string, email: string, isAdmin: bool)

  /** A snapshot of the whole database. */
  datatype Tables = Tables(users: seq<User>, groups: seq<Group>, members: seq<Membership>, messages: seq<Message>)

  /** The `len: [1, 128]` validator on a group's name. */
  const MaxGroupNameLength := 128

  predicate GroupNameLengthOk(name: string) {
    1 <= |name| <= MaxGroupNameLength
  }

  function UserIds(users: seq<User>): set<Id> {
    set u | u in users :: u.id
  }

  function GroupIds(groups: seq<Group>): set<Id> {
    set g | g in groups :: g.id
  }

  function UserKey(u: User): int { u.id }
  function GroupKey(g: Group): int { g.id }
  function MessageKey(m: Message): int { m.id }
  function NameKey(g: Group): string { g.name }
  /** group_members has no key of its own; as the join table of the two
      many-to-many associations its key is the (groupId, userId) pair. */
  function PairKey(m: Membership): Membership { m }

  /** `caller` owns a group whose id is `gid`. */
  predicate IsOwner(groups: seq<Group>, gid: Id, caller: Id) {
    exists g :: g in groups && g.id == gid && g.ownerId == caller
  }

  /** A (gid, uid) row exists in group_members. */
  predicate IsMember(members: seq<Membership>, gid: Id, uid: Id) {
    Membership(gid, uid) in members
  }

  /** Some group already carries exactly this name. */
  predicate NameTaken(groups: seq<Group>, name: string) {
    exists g :: g in groups && g.name == name
  }

  /** `findByPk` / `findOne({ where: { id } })` on groups: the first row with that id. */
  function FindGroup(groups: seq<Group>, gid: Id): (r: Option<Group>)
    ensures r.Some? ==> r.value in groups && r.value.id == gid
    ensures r.None? <==> gid !in GroupIds(groups)
    decreases |groups|
  {
    if groups == [] then None
    else if groups[0].id == gid then Some(groups[0])
    else FindGroup(groups[1..], gid)
  }

  /** `findOne({ where: { id } })` / `findByPk` on users. */
  function FindUser(users: seq<User>, uid: Id): (r: Option<User>)
    ensures r.Some? ==> r.value in users && r.value.id == uid
    ensures r.None? <==> uid !in UserIds(users)
    decreases |users|
  {
    if users == [] then None
    else if users[0].id == uid then Some(users[0])
    else FindUser(users[1..], uid)
  }

  /** `findOne({ where: { email } })` on users: the first row with that email. */
  function FindUserByEmail(users: seq<User>, email: string): (r: Option<User>)
    ensures r.Some? ==> r.value in users && r.value.email == email
    ensures r.None? <==> forall u :: u in users ==> u.email != email
    decreases |users|
  {
    if users == [] then None
    else if users[0].email == email then Some(users[0])
    else FindUserByEmail(users[1..], email)
  }

  /** With distinct group ids, the row `FindGroup` returns is the only one
      with that id, so the group's owner is well defined. */
  lemma {:induction false} FindGroupUnique(groups: seq<Group>, g: Group)
    requires DistinctKeys(groups, GroupKey)
    requires g in groups
    ensures FindGroup(groups, g.id) == Some(g)
    decreases |groups|
  {
    if groups[0] != g {
      assert g in groups[1..];
      var k :| 0 <= k < |groups| && groups[k] == g;
      assert GroupKey(groups[0]) != GroupKey(groups[k]);
      assert DistinctKeys(groups[1..], GroupKey) by {
        forall i, j | 0 <= i < j < |groups[1..]| ensures GroupKey(groups[1..][i]) != GroupKey(groups[1..][j]) {
          assert groups[1..][i] == groups[i + 1] && groups[1..][j] == groups[j + 1];
        }
      }
      FindGroupUnique(groups[1..], g);
    }
  }

  /** The constraints the schema declares: primary keys, the length of a
      group's name, non-null foreign keys that reference existing rows. */
  predicate Consistent(t: Tables) {
    && DistinctKeys(t.users, UserKey)
    && DistinctKeys(t.groups, GroupKey)
    && DistinctKeys(t.messages, MessageKey)
    && DistinctKeys(t.members, PairKey)
    && (forall g :: g in t.groups ==> GroupNameLengthOk(g.name) && g.ownerId in UserIds(t.users))
    && (forall m :: m in t.members ==> m.groupId in GroupIds(t.groups) && m.userId in UserIds(t.users))
    && (forall m :: m in t.messages ==> m.groupId in GroupIds(t.groups) && m.userId in UserIds(t.users))
  }

  // ----- row selections used by the deletes -----

  function GroupsOtherThan(groups: seq<Group>, gid: Id): (r: seq<Group>)
    ensures forall g :: g in r <==> g in groups && g.id != gid
    ensures DistinctKeys(groups, GroupKey) ==> DistinctKeys(r, GroupKey)
    ensures DistinctKeys(groups, NameKey) ==> DistinctKeys(r, NameKey)
  {
    var keep := (g: Group) => g.id != gid;
    GroupFilterKeepsKeys(groups, keep);
    Filter(groups, keep)
  }

  function GroupsNotOwnedBy(groups: seq<Group>, uid: Id): (r: seq<Group>)
    ensures forall g :: g in r <==> g in groups && g.ownerId != uid
    ensures DistinctKeys(groups, GroupKey) ==> DistinctKeys(r, GroupKey)
    ensures DistinctKeys(groups, NameKey) ==> DistinctKeys(r, NameKey)
  {
    var keep := (g: Group) => g.ownerId != uid;
    GroupFilterKeepsKeys(groups, keep);
    Filter(groups, keep)
  }

  /** Removing groups keeps both the id key and the name distinct. */
  lemma GroupFilterKeepsKeys(groups: seq<Group>, keep: Group -> bool)
    ensures DistinctKeys(groups, GroupKey) ==> DistinctKeys(Filter(groups, keep), GroupKey)
    ensures DistinctKeys(groups, NameKey) ==> DistinctKeys(Filter(groups, keep), NameKey)
  {
    if DistinctKeys(groups, GroupKey) { FilterKeepsKeysDistinct(groups, keep, GroupKey); }
    if DistinctKeys(groups, NameKey) { FilterKeepsKeysDistinct(groups, keep, NameKey); }
  }

  /** The group_members rows other than (gid, uid): `destroy({ where: { groupId, userId } })`. */
  function MembersWithout(members: seq<Membership>, gid: Id, uid: Id): (r: seq<Membership>)
    ensures forall m :: m in r <==> m in members && m != Membership(gid, uid)
    ensures DistinctKeys(members, PairKey) ==> DistinctKeys(r, PairKey)
  {
    var keep := (m: Membership) => m != Membership(gid, uid);
    if DistinctKeys(members, PairKey) then FilterKeepsKeysDistinct(members, keep, PairKey); Filter(members, keep)
    else Filter(members, keep)
  }

  function UsersOtherThan(users: seq<User>, uid: Id): (r: seq<User>)
    ensures forall u :: u in r <==> u in users && u.id != uid
    ensures DistinctKeys(users, UserKey) ==> DistinctKeys(r, UserKey)
  {
    var keep := (u: User) => u.id != uid;
    if DistinctKeys(users, UserKey) then FilterKeepsKeysDistinct(users, keep, UserKey); Filter(users, keep)
    else Filter(users, keep)
  }

  /** The ids of the groups `uid` owns. */
  function OwnedIds(groups: seq<Group>, uid: Id): set<Id> {
    set g | g in groups && g.ownerId == uid :: g.id
  }

  function MembersOutside(members: seq<Membership>, gids: set<Id>): (r: seq<Membership>)
    ensures forall m :: m in r <==> m in members && m.groupId !in gids
    ensures DistinctKeys(members, PairKey) ==> DistinctKeys(r, PairKey)
  {
    var keep := (m: Membership) => m.groupId !in gids;
    if DistinctKeys(members, PairKey) then FilterKeepsKeysDistinct(members, keep, PairKey); Filter(members, keep)
    else Filter(members, keep)
  }

  function MembersNotOf(members: seq<Membership>, uid: Id): (r: seq<Membership>)
    ensures forall m :: m in r <==> m in members && m.userId != uid
    ensures DistinctKeys(members, PairKey) ==> DistinctKeys(r, PairKey)
  {
    var keep := (m: Membership) => m.userId != uid;
    if DistinctKeys(members, PairKey) then FilterKeepsKeysDistinct(members, keep, PairKey); Filter(members, keep)
    else Filter(members, keep)
  }

  function MessagesOutside(messages: seq<Message>, gids: set<Id>): (r: seq<Message>)
    ensures forall m :: m in r <==> m in messages && m.groupId !in gids
    ensures DistinctKeys(messages, MessageKey) ==> DistinctKeys(r, MessageKey)
  {
    var keep := (m: Message) => m.groupId !in gids;
    if DistinctKeys(messages, MessageKey) then FilterKeepsKeysDistinct(messages, keep, MessageKey); Filter(messages, keep)
    else Filter(messages, keep)
  }

  function MessagesNotBy(messages: seq<Message>, uid: Id): (r: seq<Message>)
    ensures forall m :: m in r <==> m in messages && m.userId != uid
    ensures DistinctKeys(messages, MessageKey) ==> DistinctKeys(r, MessageKey)
  {
    var keep := (m: Message) => m.userId != uid;
    if DistinctKeys(messages, MessageKey) then FilterKeepsKeysDistinct(messages, keep, MessageKey); Filter(messages, keep)
    else Filter(messages, keep)
  }

  /** Destroying the group `gid`: its row goes, and ON DELETE CASCADE on
      group_members.groupId and messages.groupId takes every membership and
      every message of the group with it. Nothing else changes. */
  function DropGroup(t: Tables, gid: Id): (r: Tables)
    ensures r.users == t.users
    ensures gid !in GroupIds(r.groups)
    ensures forall g :: g in r.groups <==> g in t.groups && g.id != gid
    ensures forall m :: m in r.members <==> m in t.members && m.groupId != gid
    ensures forall m :: m in r.messages <==> m in t.messages && m.groupId != gid
  {
    Tables(t.users, GroupsOtherThan(t.groups, gid), MembersOutside(t.members, {gid}), MessagesOutside(t.messages, {gid}))
  }

  /** Destroying the user `uid`: ON DELETE CASCADE on groups.ownerId takes
      the groups they own, and in turn those groups' memberships and
      messages; the cascades on group_members.userId and messages.userId take
      their own memberships and messages. Nothing else changes. */
  function DropUser(t: Tables, uid: Id): (r: Tables)
    ensures uid !in UserIds(r.users)
    ensures forall u :: u in r.users <==> u in t.users && u.id != uid
    ensures forall g :: g in r.groups <==> g in t.groups && g.ownerId != uid
    ensures forall m :: m in r.members <==>
      m in t.members && m.userId != uid && m.groupId !in OwnedIds(t.groups, uid)
    ensures forall m :: m in r.messages <==>
      m in t.messages && m.userId != uid && m.groupId !in OwnedIds(t.groups, uid)
  {
    var owned := OwnedIds(t.groups, uid);
    Tables(UsersOtherThan(t.users, uid), GroupsNotOwnedBy(t.groups, uid),
           MembersNotOf(MembersOutside(t.members, owned), uid),
           MessagesNotBy(MessagesOutside(t.messages, owned), uid))
  }

  /** Deleting a group leaves no dangling reference behind. */
  lemma DropGroupConsistent(t: Tables, gid: Id)
    requires Consistent(t)
    ensures Consistent(DropGroup(t, gid))
  {
    var r := DropGroup(t, gid);
    forall m | m in r.members ensures m.groupId in GroupIds(r.groups) {
      var g :| g in t.groups && g.id == m.groupId;
      assert g in r.groups;
    }
    forall m | m in r.messages ensures m.groupId in GroupIds(r.groups) {
      var g :| g in t.groups && g.id == m.groupId;
      assert g in r.groups;
    }
  }

  /** Deleting a user, with its cascades, leaves no dangling reference behind. */
  lemma DropUserConsistent(t: Tables, uid: Id)
    requires Consistent(t)
    ensures Consistent(DropUser(t, uid))
  {
    var r := DropUser(t, uid);
    var owned := OwnedIds(t.groups, uid);
    forall g | g in r.groups ensures g.ownerId in UserIds(r.users) {
      var u :| u in t.users && u.id == g.ownerId;
      assert u in r.users;
    }
    forall m | m in r.members ensures m.groupId in GroupIds(r.groups) && m.userId in UserIds(r.users) {
      var g :| g in t.groups && g.id == m.groupId;
      assert g.ownerId != uid;
      assert g in r.groups;
      var u :| u in t.users && u.id == m.userId;
      assert u in r.users;
    }
    forall m | m in r.messages ensures m.groupId in GroupIds(r.groups) && m.userId in UserIds(r.users) {
      var g :| g in t.groups && g.id == m.groupId;
      assert g.ownerId != uid;
      assert g in r.groups;
      var u :| u in t.users && u.id == m.userId;
      assert u in r.users;
    }
  }
}
