/** The database as the handlers of controllers/groups.js,
    controllers/messages.js and controllers/user.js change it: one object
    whose fields are the tables, one method per writing handler. Every
    request is one atomic step. The auto-increment counters give new rows
    their ids. */
module Store {
  import opened Wrappers
  import opened Http
  import opened Seqs
  import opened Schema
  import opened Accounts

  /** The schema's constraints, the uniqueness of group names that only
      `createGroup`'s check keeps, and auto-increment counters ahead of
      every id in use. */
  ghost predicate Sound(t: Tables, nextUser: Id, nextGroup: Id, nextMessage: Id) {
    && Consistent(t)
    && DistinctKeys(t.groups, NameKey)
    && (forall u :: u in t.users ==> u.id < nextUser)
    && (forall g :: g in t.groups ==> g.id < nextGroup)
    && (forall m :: m in t.messages ==> m.id < nextMessage)
  }

  /** Deleting a group keeps the database sound. */
  lemma DropGroupSound(t: Tables, gid: Id, nextUser: Id, nextGroup: Id, nextMessage: Id)
    requires Sound(t, nextUser, nextGroup, nextMessage)
    ensures Sound(DropGroup(t, gid), nextUser, nextGroup, nextMessage)
  {
    DropGroupConsistent(t, gid);
    assert DropGroup(t, gid).groups == GroupsOtherThan(t.groups, gid);
  }

  /** Deleting a user keeps the database sound. */
  lemma DropUserSound(t: Tables, uid: Id, nextUser: Id, nextGroup: Id, nextMessage: Id)
    requires Sound(t, nextUser, nextGroup, nextMessage)
    ensures Sound(DropUser(t, uid), nextUser, nextGroup, nextMessage)
  {
    DropUserConsistent(t, uid);
    assert DropUser(t, uid).groups == GroupsNotOwnedBy(t.groups, uid);
  }

  class Db {
    var users: seq<User>
    var groups: seq<Group>
    var members: seq<Membership>
    var messages: seq<Message>
    var nextUserId: Id
    var nextGroupId: Id
    var nextMessageId: Id

    function Contents(): Tables
      reads this
    {
      Tables(users, groups, members, messages)
    }

    /** The database is sound and its counters are those given to `Sound`. */
    ghost predicate Valid()
      reads this
    {
      Sound(Contents(), nextUserId, nextGroupId, nextMessageId)
    }

    constructor ()
      ensures Valid()
      ensures Contents() == Tables([], [], [], [])
    {
      users, groups, members, messages := [], [], [], [];
      nextUserId, nextGroupId, nextMessageId := 1, 1, 1;
    }

    /** `createGroup` (groups.js:193-221). A missing or empty name is 400;
        a name any group already has is 409; a name over 128 characters
        (the model's validator) or an owner id with no user row (the foreign
        key) makes the insert throw: 500. Otherwise the group is inserted,
        then the owner's membership row; the two inserts are not one
        transaction, so when the second fails (`ownerRowFails`) the group
        stays, without its owner as a member, and the answer is 500. */
    method CreateGroup(login: Claims, name: Option<string>, ownerRowFails: bool) returns (code: Status, created: Option<Group>)
      requires Valid()
      modifies this
      ensures Valid()
      ensures users == old(users) && messages == old(messages)
      ensures code == BadRequest <==> name.None? || name.value == ""
      ensures code == BadRequest ==> unchanged(this)
      ensures code == Conflict <==> name.Some? && name.value != "" && NameTaken(old(groups), name.value)
      ensures code == Conflict ==> unchanged(this)
      ensures name.Some? && name.value != "" && !NameTaken(old(groups), name.value)
              && (!GroupNameLengthOk(name.value) || login.id !in UserIds(old(users))) ==>
        code == InternalError && unchanged(this)
      ensures name.Some? && GroupNameLengthOk(name.value) && !NameTaken(old(groups), name.value)
              && login.id in UserIds(old(users)) && ownerRowFails ==>
        && code == InternalError
        && groups == old(groups) + [Group(old(nextGroupId), name.value, login.id)]
        && members == old(members)
      ensures code == Created <==>
        && name.Some? && GroupNameLengthOk(name.value) && !NameTaken(old(groups), name.value)
        && login.id in UserIds(users) && !ownerRowFails
      ensures code == Created <==> created.Some?
      ensures created.Some? ==>
        && created.value == Group(old(nextGroupId), name.value, login.id)
        && groups == old(groups) + [created.value]
        && members == old(members) + [Membership(created.value.id, login.id)]
      ensures code != Created ==> members == old(members)
      ensures code == InternalError && groups != old(groups) ==>
        ownerRowFails && groups == old(groups) + [Group(old(nextGroupId), name.value, login.id)]
      ensures code in {Created, BadRequest, Conflict, InternalError}
      ensures forall g :: g in old(groups) ==> g in groups
    {
      if name.None? || name.value == "" {
        return BadRequest, None;
      }
      var n := name.value;
      if exists g :: g in groups && g.name == n {
        return Conflict, None;
      }
      if !GroupNameLengthOk(n) || FindUser(users, login.id).None? {
        return InternalError, None;
      }
      var g := Group(nextGroupId, n, login.id);
      var row := Membership(g.id, login.id);
      forall y | y in members ensures PairKey(y) != PairKey(row) {
        var h :| h in groups && h.id == y.groupId;
      }
      AppendFreshKey(groups, g, GroupKey);
      AppendFreshKey(groups, g, NameKey);
      groups := groups + [g];
      nextGroupId := nextGroupId + 1;
      if ownerRowFails {
        return InternalError, None;
      }
      AppendFreshKey(members, row, PairKey);
      members := members + [row];
      return Created, Some(g);
    }

    /** `deleteGroup` (groups.js:67-82): 404 for a missing group; otherwise
        the group and, by cascade, its memberships and messages go. */
    method DeleteGroup(gid: Id) returns (code: Status)
      requires Valid()
      modifies this
      ensures Valid()
      ensures gid !in old(GroupIds(groups)) ==> code == NotFound && unchanged(this)
      ensures gid in old(GroupIds(groups)) ==> code == Ok && Contents() == DropGroup(old(Contents()), gid)
      ensures nextUserId == old(nextUserId) && nextGroupId == old(nextGroupId) && nextMessageId == old(nextMessageId)
    {
      if FindGroup(groups, gid).None? {
        return NotFound;
      }
      var t := DropGroup(Contents(), gid);
      DropGroupSound(Contents(), gid, nextUserId, nextGroupId, nextMessageId);
      users, groups, members, messages := t.users, t.groups, t.members, t.messages;
      return Ok;
    }

    /** `addUserToGroup` (groups.js:96-112): 404 for an unknown user;
        otherwise one more (gid, uid) row. The handler does not look for an
        identical row, but the insert throws, and the answer is 500, when
        the row would repeat the table's (groupId, userId) key or when the
        group id has no group row (the foreign key). */
    method AddUserToGroup(gid: Id, uid: Id) returns (code: Status)
      requires Valid()
      modifies this
      ensures Valid()
      ensures users == old(users) && groups == old(groups) && messages == old(messages)
      ensures uid !in UserIds(old(users)) ==> code == NotFound && unchanged(this)
      ensures uid in UserIds(old(users)) && (gid !in GroupIds(old(groups)) || IsMember(old(members), gid, uid)) ==>
        code == InternalError && unchanged(this)
      ensures code == Ok <==> uid in UserIds(old(users)) && gid in GroupIds(old(groups)) && !IsMember(old(members), gid, uid)
      ensures code == Ok ==>
        && members == old(members) + [Membership(gid, uid)]
        && multiset(members)[Membership(gid, uid)] == 1
      ensures nextUserId == old(nextUserId) && nextGroupId == old(nextGroupId) && nextMessageId == old(nextMessageId)
    {
      if FindUser(users, uid).None? {
        return NotFound;
      }
      if FindGroup(groups, gid).None? || Membership(gid, uid) in members {
        return InternalError;
      }
      AppendFreshKey(members, Membership(gid, uid), PairKey);
      members := members + [Membership(gid, uid)];
      return Ok;
    }

    /** `removeUserFromGroup` (groups.js:126-136): every (gid, uid) row goes,
        and the answer is 200 even when there was none, even when `uid` is
        the group's owner. */
    method RemoveUserFromGroup(gid: Id, uid: Id) returns (code: Status)
      requires Valid()
      modifies this
      ensures Valid()
      ensures code == Ok
      ensures members == MembersWithout(old(members), gid, uid)
      ensures !IsMember(members, gid, uid)
      ensures users == old(users) && groups == old(groups) && messages == old(messages)
      ensures nextUserId == old(nextUserId) && nextGroupId == old(nextGroupId) && nextMessageId == old(nextMessageId)
    {
      members := MembersWithout(members, gid, uid);
      return Ok;
    }

    /** `postMessage` (messages.js:47-66): missing or empty content is 400;
        otherwise one message with the caller as author, stamped with the
        insertion time `now`. A group or author with no row breaks a
        foreign key: 500. Membership is not checked here. */
    method PostMessage(login: Claims, gid: Id, content: Option<string>, now: nat) returns (code: Status, posted: Option<Message>)
      requires Valid()
      modifies this
      ensures Valid()
      ensures users == old(users) && groups == old(groups) && members == old(members)
      ensures content.None? || content.value == "" ==> code == BadRequest && unchanged(this)
      ensures code == Created <==>
        content.Some? && content.value != "" && gid in GroupIds(groups) && login.id in UserIds(users)
      ensures code == Created <==> posted.Some?
      ensures posted.Some? ==>
        && posted.value == Message(old(nextMessageId), content.value, now, login.id, gid)
        && messages == old(messages) + [posted.value]
      ensures code != Created ==> unchanged(this)
      ensures code in {Created, BadRequest, InternalError}
    {
      if content.None? || content.value == "" {
        return BadRequest, None;
      }
      if FindGroup(groups, gid).None? || FindUser(users, login.id).None? {
        return InternalError, None;
      }
      var m := Message(nextMessageId, content.value, now, login.id, gid);
      AppendFreshKey(messages, m, MessageKey);
      messages := messages + [m];
      nextMessageId := nextMessageId + 1;
      return Created, Some(m);
    }

    /** `register` (user.js:57-94): missing fields 400, a taken email 409
        (checked before the password), a weak password 400; otherwise one
        non-admin user whose password is stored hashed (`hash` stands for
        bcrypt). */
    method Register(body: Body, hash: string -> string) returns (code: Status)
      requires Valid()
      modifies this
      ensures Valid()
      ensures groups == old(groups) && members == old(members) && messages == old(messages)
      ensures !HasAll(body, {"name", "email", "password"}) ==> code == BadRequest && unchanged(this)
      ensures HasAll(body, {"name", "email", "password"}) && (exists u :: u in old(users) && u.email == body["email"]) ==>
        code == Conflict && unchanged(this)
      ensures code == Created <==>
        && HasAll(body, {"name", "email", "password"})
        && (forall u :: u in old(users) ==> u.email != body["email"])
        && ValidPassword(body["password"])
      ensures HasAll(body, {"name", "email", "password"})
              && (forall u :: u in old(users) ==> u.email != body["email"])
              && !ValidPassword(body["password"]) ==>
        code == BadRequest && unchanged(this)
      ensures code == Created ==>
        users == old(users) + [User(old(nextUserId), body["name"], body["email"], hash(body["password"]), false)]
      ensures code != Created ==> unchanged(this)
    {
      if !HasAll(body, {"name", "email", "password"}) {
        return BadRequest;
      }
      if FindUserByEmail(users, body["email"]).Some? {
        return Conflict;
      }
      if !ValidPassword(body["password"]) {
        return BadRequest;
      }
      AddUser(User(nextUserId, body["name"], body["email"], hash(body["password"]), false));
      return Created;
    }

    /** `newUser` (user.js:44-49), the account creation actually routed:
        missing fields or a weak password are 400; there is no email check;
        success is 200. */
    method NewUser(body: Body, hash: string -> string) returns (code: Status)
      requires Valid()
      modifies this
      ensures Valid()
      ensures groups == old(groups) && members == old(members) && messages == old(messages)
      ensures code == Ok <==> HasAll(body, {"name", "email", "password"}) && ValidPassword(body["password"])
      ensures code != Ok ==> code == BadRequest && unchanged(this)
      ensures code == Ok ==>
        users == old(users) + [User(old(nextUserId), body["name"], body["email"], hash(body["password"]), false)]
    {
      if !HasAll(body, {"name", "email", "password"}) || !ValidPassword(body["password"]) {
        return BadRequest;
      }
      AddUser(User(nextUserId, body["name"], body["email"], hash(body["password"]), false));
      return Ok;
    }

    /** Inserts a user row under the next id. */
    method AddUser(u: User)
      requires Valid() && u.id == nextUserId
      modifies this
      ensures Valid()
      ensures users == old(users) + [u] && nextUserId == old(nextUserId) + 1
      ensures groups == old(groups) && members == old(members) && messages == old(messages)
      ensures nextGroupId == old(nextGroupId) && nextMessageId == old(nextMessageId)
    {
      AppendFreshKey(users, u, UserKey);
      users := users + [u];
      nextUserId := nextUserId + 1;
    }

    /** `updateUser` (user.js:111-125): 400 when the body names none of
        name, email, password; otherwise the row with that id (if any) takes
        the selected columns. */
    method UpdateUser(id: Id, body: Body, hash: string -> string) returns (code: Status)
      requires Valid()
      modifies this
      ensures Valid()
      ensures groups == old(groups) && members == old(members) && messages == old(messages)
      ensures code == BadRequest <==> "name" !in body && "email" !in body && "password" !in body
      ensures code == BadRequest ==> unchanged(this)
      ensures code != BadRequest ==> code == Ok
      ensures |users| == |old(users)|
      ensures forall i :: 0 <= i < |users| ==> users[i].id == old(users)[i].id && users[i].isAdmin == old(users)[i].isAdmin
      ensures forall i :: 0 <= i < |users| && old(users)[i].id != id ==> users[i] == old(users)[i]
      ensures code == Ok ==> forall i :: 0 <= i < |users| && old(users)[i].id == id ==>
        && users[i].name == (if "name" in body then body["name"] else old(users)[i].name)
        && users[i].email == (if "email" in body then body["email"] else old(users)[i].email)
        && users[i].passhash == (if "password" in body then hash(body["password"]) else old(users)[i].passhash)
      ensures nextUserId == old(nextUserId) && nextGroupId == old(nextGroupId) && nextMessageId == old(nextMessageId)
    {
      var patch := SelectColumns(body, hash);
      if |patch| == 0 {
        return BadRequest;
      }
      users := PatchRows(users, id, patch);
      return Ok;
    }

    /** `deleteUser` (user.js:166-169): the row goes, and by cascade the
        groups the user owns (with their memberships and messages), the
        user's memberships and the user's messages. 200 whether or not a
        row matched. */
    method DeleteUser(id: Id) returns (code: Status)
      requires Valid()
      modifies this
      ensures Valid()
      ensures code == Ok
      ensures Contents() == DropUser(old(Contents()), id)
      ensures nextUserId == old(nextUserId) && nextGroupId == old(nextGroupId) && nextMessageId == old(nextMessageId)
    {
      var t := DropUser(Contents(), id);
      DropUserSound(Contents(), id, nextUserId, nextGroupId, nextMessageId);
      users, groups, members, messages := t.users, t.groups, t.members, t.messages;
      return Ok;
    }
  }
}
