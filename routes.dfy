/** The Express routers of backend/src/routes/groups.js, messages.js and
    user.js: each endpoint runs its guard chain, in order, and the first
    guard that answers ends the request; a request that gets through
    reaches its handler with the identity the token guard attached. */
module Routes {
  import opened Wrappers
  import opened Http
  import opened Seqs
  import opened Schema
  import opened Auth
  import opened Accounts
  import opened Queries
  import opened Store

  /** The routed endpoints, with their path parameters. */
  datatype Endpoint =
    | ListOwnedGroups            // GET    /api/mygroups
    | ListMemberGroups           // GET    /api/groupsmember
    | RemoveGroup(gid: Id)       // DELETE /api/mygroups/:gid
    | AddMember(gid: Id, uid: Id)    // POST   /api/mygroups/:gid/:uid
    | RemoveMember(gid: Id, uid: Id) // DELETE /api/mygroups/:gid/:uid
    | ListMembers(gid: Id)       // GET    /api/mygroups/:gid
    | NewGroup                   // POST   /api/mygroups
    | ListMessages(gid: Id)      // GET    /api/messages/:gid
    | SendMessage(gid: Id)       // POST   /api/messages/:gid
    | ListUsers                  // GET    /api/users
    | AddUser                    // POST   /api/users
    | EditUser(id: Id)           // PUT    /api/users/:id
    | RemoveUser(id: Id)         // DELETE /api/users/:id
    | SignIn                     // POST   /login

  datatype Guard = TokenPresent | GroupOwner(gid: Id) | GroupMember(gid: Id) | MembersAccess(gid: Id)

  /** The middleware each route lists before its handler. */
  function Chain(e: Endpoint): seq<Guard> {
    match e
    case ListOwnedGroups => [TokenPresent]
    case ListMemberGroups => [TokenPresent]
    case RemoveGroup(gid) => [TokenPresent, GroupOwner(gid)]
    case AddMember(gid, _) => [TokenPresent, GroupOwner(gid)]
    case RemoveMember(gid, _) => [TokenPresent, GroupOwner(gid)]
    case ListMembers(gid) => [TokenPresent, MembersAccess(gid)]
    case NewGroup => [TokenPresent]
    case ListMessages(gid) => [TokenPresent, GroupMember(gid)]
    case SendMessage(gid) => [TokenPresent, GroupMember(gid)]
    case ListUsers => []
    case AddUser => []
    case EditUser(_) => []
    case RemoveUser(_) => []
    case SignIn => []
  }

  /** The endpoints of the group and message routers, which all start with
      the token guard; the user router has no guard at all. */
  predicate Guarded(e: Endpoint) {
    !(e.ListUsers? || e.AddUser? || e.EditUser? || e.RemoveUser? || e.SignIn?)
  }

  /** The outcome of a guard chain: the handler runs with `req.login`, or a
      guard has answered. */
  datatype Gate = Proceed(login: Option<Claims>) | Halt(code: Status)

  /** A request: the `x-access-token` header, if any, and the JSON body. */
  datatype Request = Request(token: Option<Token>, body: Body)

  /** What the server does not compute itself: `jws` signature checking and
      decoding, bcrypt hashing and comparison, the insertion time of a
      message, and whether the second insert of `createGroup` fails. */
  datatype Env = Env(
    verify: Token -> bool, decode: Token -> Claims,
    hash: string -> string, compare: (string, string) -> bool,
    now: nat, ownerRowFails: bool)

  /** One middleware: the token guard attaches the decoded claims; the
      other guards read them and pass them on unchanged. */
  function Step(g: Guard, t: Tables, token: Option<Token>, verify: Token -> bool,
                decode: Token -> Claims, login: Option<Claims>): Gate
  {
    match g
    case TokenPresent =>
      (match TokenGuard(token, verify, decode)
       case Refused(code) => Halt(code)
       case Admitted(c) => Proceed(Some(c)))
    case GroupOwner(gid) => Follow(OwnerGuard(t.groups, gid, login), login)
    case GroupMember(gid) => Follow(MemberGuard(t.members, gid, login), login)
    case MembersAccess(gid) => Follow(MembersAccessGuard(t.groups, t.members, gid, login), login)
  }

  function Follow(v: Verdict, login: Option<Claims>): Gate {
    if v.Deny? then Halt(v.code) else Proceed(login)
  }

  /** Running the guards one after the other: the first that answers ends
      the request. */
  function RunChain(chain: seq<Guard>, t: Tables, token: Option<Token>, verify: Token -> bool,
                    decode: Token -> Claims, login: Option<Claims>): Gate
    decreases |chain|
  {
    if chain == [] then Proceed(login)
    else match Step(chain[0], t, token, verify, decode, login)
      case Halt(code) => Halt(code)
      case Proceed(next) => RunChain(chain[1..], t, token, verify, decode, next)
  }

  /** A chain of two guards, unfolded. */
  lemma RunPair(a: Guard, b: Guard, t: Tables, token: Option<Token>, verify: Token -> bool,
                decode: Token -> Claims, login: Option<Claims>)
    ensures var first := Step(a, t, token, verify, decode, login);
      RunChain([a, b], t, token, verify, decode, login) ==
        if first.Halt? then first else Step(b, t, token, verify, decode, first.login)
  {
    assert [a, b][1..] == [b];
    var first := Step(a, t, token, verify, decode, login);
    if first.Proceed? {
      RunSingle(b, t, token, verify, decode, first.login);
    }
  }

  lemma RunSingle(a: Guard, t: Tables, token: Option<Token>, verify: Token -> bool,
                  decode: Token -> Claims, login: Option<Claims>)
    ensures RunChain([a], t, token, verify, decode, login) == Step(a, t, token, verify, decode, login)
  {
    assert [a][1..] == [];
  }

  function Admit(e: Endpoint, t: Tables, req: Request, env: Env): Gate {
    RunChain(Chain(e), t, req.token, env.verify, env.decode, None)
  }

  /** The token holds a valid signature. */
  predicate Signed(req: Request, env: Env) {
    req.token.Some? && env.verify(req.token.value)
  }

  // ----- what the guard chains admit -----

  /** A guarded route runs the token guard, then at most one more guard. */
  lemma Unfold(e: Endpoint, t: Tables, req: Request, env: Env)
    ensures !Guarded(e) ==> Chain(e) == []
    ensures Guarded(e) ==> 1 <= |Chain(e)| <= 2 && Chain(e)[0] == TokenPresent
    ensures var first := Step(TokenPresent, t, req.token, env.verify, env.decode, None);
      && (|Chain(e)| == 1 ==> Admit(e, t, req, env) == first)
      && (|Chain(e)| == 2 ==>
            Admit(e, t, req, env) ==
              (if first.Halt? then first else Step(Chain(e)[1], t, req.token, env.verify, env.decode, first.login)))
  {
    if |Chain(e)| == 1 {
      RunSingle(Chain(e)[0], t, req.token, env.verify, env.decode, None);
    } else if |Chain(e)| == 2 {
      assert Chain(e) == [Chain(e)[0], Chain(e)[1]];
      RunPair(Chain(e)[0], Chain(e)[1], t, req.token, env.verify, env.decode, None);
    }
  }

  /** The user routes, account deletion and update included, are open to
      anyone, token or not, and their handlers see no identity. */
  lemma UserRoutesOpen(e: Endpoint, t: Tables, req: Request, env: Env)
    requires !Guarded(e)
    ensures Admit(e, t, req, env) == Proceed(None)
  {
    Unfold(e, t, req, env);
  }

  /** Every group and message route answers 403 without a validly signed
      token, and a request that gets through carries the claims decoded
      from its token. */
  lemma TokenRequired(e: Endpoint, t: Tables, req: Request, env: Env)
    ensures Guarded(e) && !Signed(req, env) ==> Admit(e, t, req, env) == Halt(Forbidden)
    ensures Guarded(e) && Admit(e, t, req, env).Proceed? ==>
      Signed(req, env) && Admit(e, t, req, env).login == Some(env.decode(req.token.value))
  {
    Unfold(e, t, req, env);
  }

  /** Group deletion and membership changes: for a valid token, 404 when
      the group is missing, 403 when the caller does not own it, and
      otherwise through. */
  lemma OwnerRoutes(e: Endpoint, t: Tables, req: Request, env: Env)
    requires e.RemoveGroup? || e.AddMember? || e.RemoveMember?
    requires DistinctKeys(t.groups, GroupKey)
    requires Signed(req, env)
    ensures Admit(e, t, req, env).Proceed? <==> IsOwner(t.groups, e.gid, env.decode(req.token.value).id)
    ensures e.gid !in GroupIds(t.groups) ==> Admit(e, t, req, env) == Halt(NotFound)
    ensures e.gid in GroupIds(t.groups) && !IsOwner(t.groups, e.gid, env.decode(req.token.value).id) ==>
      Admit(e, t, req, env) == Halt(Forbidden)
  {
    Unfold(e, t, req, env);
    OwnerGuardDecides(t.groups, e.gid, env.decode(req.token.value));
  }

  /** Reading and posting messages: for a valid token, through exactly when
      a membership row links the caller to the group, 403 otherwise, even
      for a group that does not exist. */
  lemma MessageRoutes(e: Endpoint, t: Tables, req: Request, env: Env)
    requires e.ListMessages? || e.SendMessage?
    requires Signed(req, env)
    ensures Admit(e, t, req, env).Proceed? <==> IsMember(t.members, e.gid, env.decode(req.token.value).id)
    ensures !IsMember(t.members, e.gid, env.decode(req.token.value).id) ==> Admit(e, t, req, env) == Halt(Forbidden)
  {
    Unfold(e, t, req, env);
    MemberGuardDecides(t.members, e.gid, env.decode(req.token.value));
  }

  /** Listing a group's members: an admin always gets through; anyone else
      gets 404 for a missing group, and otherwise gets through exactly when
      they own the group or belong to it, 403 if not. */
  lemma MembersRoute(e: Endpoint, t: Tables, req: Request, env: Env)
    requires e.ListMembers?
    requires DistinctKeys(t.groups, GroupKey)
    requires Signed(req, env)
    ensures var c := env.decode(req.token.value);
      Admit(e, t, req, env).Proceed? <==>
        c.isAdmin || (e.gid in GroupIds(t.groups) && (IsOwner(t.groups, e.gid, c.id) || IsMember(t.members, e.gid, c.id)))
    ensures var c := env.decode(req.token.value);
      !c.isAdmin && e.gid !in GroupIds(t.groups) ==> Admit(e, t, req, env) == Halt(NotFound)
  {
    Unfold(e, t, req, env);
    MembersAccessDecides(t.groups, t.members, e.gid, env.decode(req.token.value));
  }

  /** Every guard that reads `req.login` runs after the token guard, so no
      chain ever answers 500: a chain answers 403 or 404, or lets the
      request through. */
  lemma ChainsNeverFail(e: Endpoint, t: Tables, req: Request, env: Env)
    ensures Admit(e, t, req, env).Halt? ==> Admit(e, t, req, env).code in {Forbidden, NotFound}
  {
    Unfold(e, t, req, env);
    if |Chain(e)| == 2 && Signed(req, env) {
      var c := env.decode(req.token.value);
      match Chain(e)[1]
      case GroupOwner(gid) =>
        assert OwnerGuard(t.groups, gid, Some(c)) != Deny(InternalError) by {
          match FindGroup(t.groups, gid)
          case None =>
          case Some(g) =>
        }
      case GroupMember(gid) =>
      case MembersAccess(gid) =>
      case TokenPresent =>
    }
  }

  /** The status a read answers with. */
  function AnswerCode<T>(a: Answer<T>): Status {
    if a.Found? then Ok else a.code
  }

  /** One request, from the guard chain to the handler, on the database
      `db`. A guard that answers leaves the database as it was. Only a
      member of a group gets a message into it, under their own id; only
      the owner of a group or the group's creator gets a membership row
      added; a group disappears only through its owner's request or
      through the deletion of its owner's account, which no guard
      protects. */
  method Serve(db: Db, e: Endpoint, req: Request, env: Env) returns (code: Status)
    requires db.Valid()
    modifies db
    ensures db.Valid()
    ensures Admit(e, old(db.Contents()), req, env).Halt? ==>
      code == Admit(e, old(db.Contents()), req, env).code && db.Contents() == old(db.Contents())
    ensures forall m :: m in db.messages && m !in old(db.messages) ==>
      && e == SendMessage(m.groupId)
      && Signed(req, env)
      && Admit(e, old(db.Contents()), req, env) == Proceed(Some(env.decode(req.token.value)))
      && m.userId == env.decode(req.token.value).id
      && IsMember(old(db.members), m.groupId, m.userId)
    ensures forall x :: x in db.members && x !in old(db.members) ==>
      && Signed(req, env)
      && Admit(e, old(db.Contents()), req, env) == Proceed(Some(env.decode(req.token.value)))
      && ((e == AddMember(x.groupId, x.userId) && IsOwner(old(db.groups), x.groupId, env.decode(req.token.value).id))
          || (e.NewGroup? && x.userId == env.decode(req.token.value).id))
    ensures forall g :: g in old(db.groups) && g !in db.groups ==>
      (e == RemoveGroup(g.id) && Signed(req, env) && Admit(e, old(db.Contents()), req, env) == Proceed(Some(env.decode(req.token.value)))
        && g.ownerId == env.decode(req.token.value).id)
      || e == RemoveUser(g.ownerId)
    ensures e.ListOwnedGroups? || e.ListMemberGroups? || e.ListMembers? || e.ListMessages? || e.ListUsers? || e.SignIn? ==>
      db.Contents() == old(db.Contents())
    ensures forall m :: m in old(db.messages) && m !in db.messages ==>
      e == RemoveGroup(m.groupId) || e.RemoveUser?
    ensures forall x :: x in old(db.members) && x !in db.members ==>
      e == RemoveGroup(x.groupId) || e == RemoveMember(x.groupId, x.userId) || e.RemoveUser?
    ensures db.users != old(db.users) ==> e.AddUser? || e.EditUser? || e.RemoveUser?
  {
    var t := db.Contents();
    var gate := Admit(e, t, req, env);
    if gate.Halt? {
      return gate.code;
    }
    if Guarded(e) {
      TokenRequired(e, t, req, env);
    } else {
      UserRoutesOpen(e, t, req, env);
    }
    match e {
      case ListOwnedGroups =>
        return Ok;
      case ListMemberGroups =>
        return AnswerCode(MemberGroups(t, gate.login.value.id));
      case RemoveGroup(gid) =>
        OwnerRoutes(e, t, req, env);
        var c := gate.login.value;
        var owned :| owned in t.groups && owned.id == gid && owned.ownerId == c.id;
        code := db.DeleteGroup(gid);
        forall g | g in t.groups && g !in db.groups ensures g.ownerId == c.id {
          FindGroupUnique(t.groups, g);
          FindGroupUnique(t.groups, owned);
        }
      case AddMember(gid, uid) =>
        OwnerRoutes(e, t, req, env);
        code := db.AddUserToGroup(gid, uid);
      case RemoveMember(gid, uid) =>
        OwnerRoutes(e, t, req, env);
        code := db.RemoveUserFromGroup(gid, uid);
      case ListMembers(gid) =>
        return AnswerCode(GroupMembers(t, gid));
      case NewGroup =>
        var name := if "name" in req.body then Some(req.body["name"]) else None;
        var created;
        code, created := db.CreateGroup(gate.login.value, name, env.ownerRowFails);
      case ListMessages(gid) =>
        return Ok;
      case SendMessage(gid) =>
        MessageRoutes(e, t, req, env);
        var content := if "content" in req.body then Some(req.body["content"]) else None;
        var posted;
        code, posted := db.PostMessage(gate.login.value, gid, content, env.now);
      case ListUsers =>
        return Ok;
      case AddUser =>
        code := db.NewUser(req.body, env.hash);
      case EditUser(id) =>
        code := db.UpdateUser(id, req.body, env.hash);
      case RemoveUser(id) =>
        code := db.DeleteUser(id);
      case SignIn =>
        var reply := Login(t.users, req.body, env.compare);
        return if reply.Signed? then Ok else reply.code;
    }
  }
}
