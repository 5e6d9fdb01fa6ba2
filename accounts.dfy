/** The decisions of backend/src/controllers/user.js that do not write:
    the password-strength rule, the login check, the choice of columns an
    update writes, and the checks before a password change. */
module Accounts {
  import opened Wrappers
  import opened Http
  import opened Schema
  import opened Seqs

  /** A parsed JSON request body: the keys present and their values. */
  type Body = map<string, string>

  predicate IsDigit(c: char) { '0' <= c <= '9' }
  predicate IsUpper(c: char) { 'A' <= c <= 'Z' }
  predicate IsLower(c: char) { 'a' <= c <= 'z' }
  predicate IsSpecial(c: char) { c in "!@#$%^&*" }

  /** The character class `[\w!@#$%^&*]`. */
  predicate IsPasswordChar(c: char) {
    IsDigit(c) || IsUpper(c) || IsLower(c) || c == '_' || IsSpecial(c)
  }

  /** The pattern `^(?=.*[\d])(?=.*[A-Z])(?=.*[a-z])(?=.*[!@#$%^&*])[\w!@#$%^&*]{8,}$`
      read literally: four lookaheads that each find one character of a
      class, then at least eight characters of the allowed class. */
  ghost predicate PasswordPattern(p: string) {
    && |p| >= 8
    && (forall i :: 0 <= i < |p| ==> IsPasswordChar(p[i]))
    && (exists i :: 0 <= i < |p| && IsDigit(p[i]))
    && (exists i :: 0 <= i < |p| && IsUpper(p[i]))
    && (exists i :: 0 <= i < |p| && IsLower(p[i]))
    && (exists i :: 0 <= i < |p| && IsSpecial(p[i]))
  }

  /** Which character classes a string uses. */
  datatype CharMix = CharMix(digit: bool, upper: bool, lower: bool, special: bool, allAllowed: bool)

  /** One left-to-right pass over the string, as a regex engine makes. */
  function Mix(p: string): (m: CharMix)
    ensures m.digit <==> exists i :: 0 <= i < |p| && IsDigit(p[i])
    ensures m.upper <==> exists i :: 0 <= i < |p| && IsUpper(p[i])
    ensures m.lower <==> exists i :: 0 <= i < |p| && IsLower(p[i])
    ensures m.special <==> exists i :: 0 <= i < |p| && IsSpecial(p[i])
    ensures m.allAllowed <==> forall i :: 0 <= i < |p| ==> IsPasswordChar(p[i])
    decreases |p|
  {
    if p == [] then CharMix(false, false, false, false, true)
    else
      var init, c := p[..|p| - 1], p[|p| - 1];
      var m := Mix(init);
      assert forall i :: 0 <= i < |init| ==> init[i] == p[i];
      CharMix(m.digit || IsDigit(c), m.upper || IsUpper(c), m.lower || IsLower(c),
              m.special || IsSpecial(c), m.allAllowed && IsPasswordChar(c))
  }

  /** `validPassword` (user.js:10-12). */
  function ValidPassword(p: string): (r: bool)
    ensures r <==> PasswordPattern(p)
  {
    var m := Mix(p);
    |p| >= 8 && m.allAllowed && m.digit && m.upper && m.lower && m.special
  }

  /** `has(body, [keys])`: every key is present. */
  predicate HasAll(body: Body, keys: set<string>) {
    keys <= body.Keys
  }

  /** The payload `login` signs into the token. */
  function ClaimsOf(u: User): Claims {
    Claims(u.id, u.name, u.email, u.isAdmin)
  }

  datatype LoginReply = Signed(payload: Claims) | LoginDenied(code: Status)

  /** `login`: the first user with the email, if the hash comparison
      (bcrypt's `compare`, a parameter here) accepts the password. */
  function Login(users: seq<User>, body: Body, compare: (string, string) -> bool): (r: LoginReply)
    ensures !HasAll(body, {"email", "password"}) ==> r == LoginDenied(BadRequest)
    ensures r.Signed? ==>
      && HasAll(body, {"email", "password"})
      && (exists u :: u in users && u.email == body["email"]
                      && compare(body["password"], u.passhash) && r.payload == ClaimsOf(u))
    ensures HasAll(body, {"email", "password"}) && r.LoginDenied? ==> r.code == Forbidden
    ensures HasAll(body, {"email", "password"}) && (forall u :: u in users ==> u.email != body["email"]) ==>
      r == LoginDenied(Forbidden)
    ensures HasAll(body, {"email", "password"}) && FindUserByEmail(users, body["email"]).Some? ==>
      var u := FindUserByEmail(users, body["email"]).value;
      r == if compare(body["password"], u.passhash) then Signed(ClaimsOf(u)) else LoginDenied(Forbidden)
  {
    if !HasAll(body, {"email", "password"}) then LoginDenied(BadRequest)
    else match FindUserByEmail(users, body["email"])
      case Some(u) =>
        if compare(body["password"], u.passhash) then Signed(ClaimsOf(u)) else LoginDenied(Forbidden)
      case None => LoginDenied(Forbidden)
  }

  /** A known email with the wrong password gets the very answer an
      unknown email gets: nothing tells the two apart. */
  lemma LoginHidesWhichCheckFailed(users: seq<User>, body: Body, compare: (string, string) -> bool, u: User)
    requires HasAll(body, {"email", "password"})
    requires FindUserByEmail(users, body["email"]) == Some(u)
    requires !compare(body["password"], u.passhash)
    ensures Login(users, body, compare) == Login([], body, compare) == LoginDenied(Forbidden)
  {
  }

  /** The request field an `updateUser` column comes from. */
  function ColumnOf(field: string): string {
    if field == "password" then "passhash" else field
  }

  /** The fields `updateUser` looks at, in order. */
  const UpdatableFields: seq<string> := ["name", "email", "password"]

  /** The loop of `updateUser` (user.js:111-120): copies `name` and `email`
      when present and stores the hash of `password` (bcrypt, a parameter
      here) as `passhash`, never the password itself. */
  method SelectColumns(body: Body, hash: string -> string) returns (patch: map<string, string>)
    ensures "name" in patch <==> "name" in body
    ensures "email" in patch <==> "email" in body
    ensures "passhash" in patch <==> "password" in body
    ensures "name" in body ==> patch["name"] == body["name"]
    ensures "email" in body ==> patch["email"] == body["email"]
    ensures "password" in body ==> patch["passhash"] == hash(body["password"])
    ensures patch.Keys <= {"name", "email", "passhash"}
  {
    patch := map[];
    for k := 0 to |UpdatableFields|
      invariant forall j :: 0 <= j < k ==> (ColumnOf(UpdatableFields[j]) in patch <==> UpdatableFields[j] in body)
      invariant forall j :: k <= j < |UpdatableFields| ==> ColumnOf(UpdatableFields[j]) !in patch
      invariant patch.Keys <= {"name", "email", "passhash"}
      invariant "name" in patch ==> "name" in body && patch["name"] == body["name"]
      invariant "email" in patch ==> "email" in body && patch["email"] == body["email"]
      invariant "passhash" in patch ==> "password" in body && patch["passhash"] == hash(body["password"])
    {
      var field := UpdatableFields[k];
      if field in body {
        if field == "password" {
          patch := patch["passhash" := hash(body["password"])];
        } else {
          patch := patch[field := body[field]];
        }
      }
    }
    assert ColumnOf(UpdatableFields[0]) == "name" && ColumnOf(UpdatableFields[1]) == "email";
    assert ColumnOf(UpdatableFields[2]) == "passhash";
  }

  /** The row `updateUser` writes: the patched columns, the rest as they were. */
  function Patched(u: User, patch: map<string, string>): (r: User)
    ensures r.id == u.id && r.isAdmin == u.isAdmin
  {
    User(u.id,
         if "name" in patch then patch["name"] else u.name,
         if "email" in patch then patch["email"] else u.email,
         if "passhash" in patch then patch["passhash"] else u.passhash,
         u.isAdmin)
  }

  /** The rows of `users` after `User.update(patch, {where: {id}})`: the
      row with that id takes the patch, every other row stays. */
  function PatchRows(users: seq<User>, id: Id, patch: map<string, string>): (r: seq<User>)
    ensures |r| == |users|
    ensures forall i :: 0 <= i < |r| ==> r[i] == (if users[i].id == id then Patched(users[i], patch) else users[i])
    ensures UserIds(r) == UserIds(users)
    ensures DistinctKeys(users, UserKey) ==> DistinctKeys(r, UserKey)
  {
    var r := seq(|users|, i requires 0 <= i < |users| => if users[i].id == id then Patched(users[i], patch) else users[i]);
    assert forall i :: 0 <= i < |r| ==> r[i].id == users[i].id;
    assert UserIds(r) == UserIds(users) by {
      forall x | x in UserIds(users) ensures x in UserIds(r) {
        var i :| 0 <= i < |users| && users[i].id == x;
        assert r[i] in r;
      }
      forall x | x in UserIds(r) ensures x in UserIds(users) {
        var i :| 0 <= i < |r| && r[i].id == x;
        assert users[i] in users;
      }
    }
    r
  }

  /** The checks of `updatePassword` (user.js:139-153), in their order:
      no login is 401, a missing password 400, a weak one 400. The write
      that follows them is not part of this model. */
  function PasswordChangeVerdict(login: Option<Claims>, body: Body): (r: Status)
    ensures r == Ok <==> login.Some? && "password" in body && ValidPassword(body["password"])
    ensures login.None? ==> r == Unauthorized
    ensures login.Some? && r != Ok ==> r == BadRequest
  {
    if login.None? then Unauthorized
    else if "password" !in body then BadRequest
    else if !ValidPassword(body["password"]) then BadRequest
    else Ok
  }
}
