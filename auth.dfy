/** The route guards of backend/src/middleware/auth.js. Each guard is an
    early-exit decision over the caller's claims and read-only lookups in
    the group and membership tables: it lets the request through (`Pass`)
    or answers it with a status code (`Deny`). */
module Auth {
  import opened Wrappers
  import opened Http
  import opened Seqs
  import opened Schema

  /** The value of the `x-access-token` header. */
  type Token = string

  datatype Verdict = Pass | Deny(code: Status)

  /** What the token guard decides: the identity it attaches to the request
      as `req.login`, or the refusal it answers with. */
  datatype Admission = Admitted(login: Claims) | Refused(code: Status)

  /** `verifieTokenPresent`. Signature checking and payload decoding are
      the `jws` library's: `verify` and `decode` stand for them. */
  function TokenGuard(token: Option<Token>, verify: Token -> bool, decode: Token -> Claims): (r: Admission)
    ensures r.Refused? ==> r.code == Forbidden
    ensures token.None? ==> r.Refused?
    ensures token.Some? ==> (r.Admitted? <==> verify(token.value))
    ensures r.Admitted? ==> r.login == decode(token.value)
  {
    match token
    case None => Refused(Forbidden)
    case Some(t) => if !verify(t) then Refused(Forbidden) else Admitted(decode(t))
  }

  /** `verifieAdmin`: trusts the `isAdmin` flag of the token, never the
      user table (it has no table to look at). */
  function AdminGuard(login: Option<Claims>): (r: Verdict)
    ensures r == Pass <==> login.Some? && login.value.isAdmin
    ensures login.None? ==> r == Deny(Unauthorized)
    ensures login.Some? && !login.value.isAdmin ==> r == Deny(Forbidden)
  {
    if login.None? then Deny(Unauthorized)
    else if !login.value.isAdmin then Deny(Forbidden)
    else Pass
  }

  /** `verifieProprietaireGroupe`. The group is looked up before the
      caller's id is read, so a missing group is 404 whoever asks; reading
      `req.login.id` without a login throws, which the handler's catch
      turns into 500. */
  function OwnerGuard(groups: seq<Group>, gid: Id, login: Option<Claims>): (r: Verdict)
  {
    match FindGroup(groups, gid)
    case None => Deny(NotFound)
    case Some(g) =>
      if login.None? then Deny(InternalError)
      else if g.ownerId != login.value.id then Deny(Forbidden)
      else Pass
  }

  /** `verifieMembreGroupe`: only the membership table is consulted. */
  function MemberGuard(members: seq<Membership>, gid: Id, login: Option<Claims>): (r: Verdict)
  {
    if login.None? then Deny(InternalError)
    else if !IsMember(members, gid, login.value.id) then Deny(Forbidden)
    else Pass
  }

  /** `verifieAccesGroupMembers`: admin, then existence, then owner, then member. */
  function MembersAccessGuard(groups: seq<Group>, members: seq<Membership>, gid: Id, login: Option<Claims>): (r: Verdict)
  {
    if login.None? then Deny(InternalError)
    else if login.value.isAdmin then Pass
    else match FindGroup(groups, gid)
      case None => Deny(NotFound)
      case Some(g) =>
        if g.ownerId == login.value.id then Pass
        else if IsMember(members, gid, login.value.id) then Pass
        else Deny(Forbidden)
  }

  // ----- what the guards mean for a signed-in caller -----

  /** The owner guard answers 404 exactly when the group is missing, and
      otherwise lets the caller through exactly when they own it. */
  lemma OwnerGuardDecides(groups: seq<Group>, gid: Id, c: Claims)
    requires DistinctKeys(groups, GroupKey)
    ensures OwnerGuard(groups, gid, Some(c)) == Deny(NotFound) <==> gid !in GroupIds(groups)
    ensures OwnerGuard(groups, gid, Some(c)) == Pass <==> IsOwner(groups, gid, c.id)
    ensures OwnerGuard(groups, gid, Some(c)) in {Pass, Deny(NotFound), Deny(Forbidden)}
  {
    if IsOwner(groups, gid, c.id) {
      var g :| g in groups && g.id == gid && g.ownerId == c.id;
      FindGroupUnique(groups, g);
    }
  }

  /** The membership guard never answers 404, even for a group that does
      not exist: it passes exactly when a membership row exists. */
  lemma MemberGuardDecides(members: seq<Membership>, gid: Id, c: Claims)
    ensures MemberGuard(members, gid, Some(c)) == Pass <==> IsMember(members, gid, c.id)
    ensures MemberGuard(members, gid, Some(c)) != Deny(NotFound)
  {
  }

  /** In a consistent database, getting past the membership guard implies
      the group exists, so its missing 404 branch costs nothing. */
  lemma MemberGuardImpliesGroup(t: Tables, gid: Id, c: Claims)
    requires Consistent(t)
    requires MemberGuard(t.members, gid, Some(c)) == Pass
    ensures gid in GroupIds(t.groups) && c.id in UserIds(t.users)
  {
    assert Membership(gid, c.id) in t.members;
  }

  /** The member-list guard: an admin passes even for a missing group; any
      other caller gets 404 for a missing group and otherwise passes
      exactly when they own the group or are one of its members. */
  lemma MembersAccessDecides(groups: seq<Group>, members: seq<Membership>, gid: Id, c: Claims)
    requires DistinctKeys(groups, GroupKey)
    ensures c.isAdmin ==> MembersAccessGuard(groups, members, gid, Some(c)) == Pass
    ensures !c.isAdmin && gid !in GroupIds(groups) ==>
      MembersAccessGuard(groups, members, gid, Some(c)) == Deny(NotFound)
    ensures !c.isAdmin && gid in GroupIds(groups) ==>
      (MembersAccessGuard(groups, members, gid, Some(c)) == Pass <==>
        IsOwner(groups, gid, c.id) || IsMember(members, gid, c.id))
    ensures MembersAccessGuard(groups, members, gid, Some(c)) != Pass ==>
      MembersAccessGuard(groups, members, gid, Some(c)) in {Deny(NotFound), Deny(Forbidden)}
  {
    if IsOwner(groups, gid, c.id) {
      var g :| g in groups && g.id == gid && g.ownerId == c.id;
      FindGroupUnique(groups, g);
    }
  }

  /** Whoever gets past the owner guard, or the membership guard, also gets
      past the member-list guard. */
  lemma MembersAccessWidens(groups: seq<Group>, members: seq<Membership>, gid: Id, c: Claims)
    ensures OwnerGuard(groups, gid, Some(c)) == Pass ==> MembersAccessGuard(groups, members, gid, Some(c)) == Pass
    ensures MemberGuard(members, gid, Some(c)) == Pass && gid in GroupIds(groups) ==>
      MembersAccessGuard(groups, members, gid, Some(c)) == Pass
  {
  }
}
