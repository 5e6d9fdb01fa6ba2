# YMCHAT: a model of the group-chat server and its forms

YMCHAT is a group messaging application. An Express server keeps users,
groups, group memberships and messages in a relational database. It checks
requests with a chain of guards: a signed token, group ownership, group
membership. The React client has forms for registration and login, a
screen to manage a group's members and a chat screen for a group.

This project models, in Dafny:

- the tables and the constraints the models declare: primary keys, the
  group name length, foreign keys, and ON DELETE CASCADE (module `Schema`);
- the guards of the authentication middleware (module `Auth`);
- the writing handlers, as methods of one database object `Store.Db`
  whose fields are the tables (module `Store`);
- the read-only handlers (module `Queries`);
- the decisions of the user controller that do not write: the password
  rule, login, and the column selection of an update (module `Accounts`);
- the routers: which guard chain each endpoint runs, and one request from
  guard chain to handler (`Routes.Serve`);
- the client components `RegisterForm`, `LoginForm`, `GroupManager` and
  `GroupChat` (modules `Forms` and `GroupViews`). Each is a class whose
  fields are the component's state and whose methods are its handlers.

Supporting modules:

- `Text` holds JavaScript's whitespace set, `trim` and decimal printing.
- `Validators` holds the client's email pattern and password rule.
- `Ordering` holds the two sorts by creation time.
- `Seqs` holds filtering and key lemmas.

Some things are parameters of the model because the program does not
compute them itself:

- signature checking and decoding of the token (`verify`, `decode`);
- bcrypt hashing and comparison (`hash`, `compare`);
- the insertion time of a message (`now`);
- whether the second insert of group creation fails (`ownerRowFails`);
- what a client request resolves to (`Outcome`, `Reply`).

Where the code and the documented design disagree, the model follows the
code:

- Group creation inserts the group and then the owner's membership row
  outside a transaction. When the second insert fails, the group stays.
- Adding a member does not check for an existing membership row. The
  group_members table serves as the join table of the two many-to-many
  associations (models/groups.js:58-59), which gives it the
  (groupId, userId) pair as its key. So adding an existing member makes
  the insert fail, and the answer is 500. `Schema.Consistent` states this
  key as `DistinctKeys(members, PairKey)`.
- An owner may remove themselves from their own group.
- The message controller does not check the 128-character content limit.
- `verifieAdmin` is wired to no route.
- The user routes (`/api/users`, `/login`) run no guard at all, deletion
  and update included.
- `register` and `updatePassword` are not routed. The routed account
  creation is `newUser`, which does not check for a duplicate email and
  answers 200.

## Model

| member | source | states |
|---|---|---|
| Schema.FindGroup | backend/src/controllers/groups.js:71 | the row found has the id asked for; none is found exactly when no group has that id |
| Schema.FindUser | backend/src/controllers/groups.js:101 | the row found has the id asked for; none is found exactly when no user has that id |
| Schema.FindUserByEmail | backend/src/controllers/user.js:21 | the row found has the email asked for; none is found exactly when no user has that email |
| Schema.FindGroupUnique | backend/src/middleware/auth.js:95-100 | with distinct group ids, the lookup by id returns the one group with that id, so its owner is well defined |
| Schema.GroupsOtherThan | backend/src/controllers/groups.js:77 | keeps exactly the groups with another id, and keeps ids and names distinct |
| Schema.GroupsNotOwnedBy | backend/src/models/groups.js:19-27 | keeps exactly the groups another user owns (the cascade on ownerId), and keeps ids and names distinct |
| Schema.MembersWithout | backend/src/controllers/groups.js:131 | keeps exactly the membership rows other than (gid, uid) |
| Schema.DropGroup | backend/src/models/groups.js:36-45 | deleting a group removes that group, its membership rows and its messages, and nothing else |
| Schema.DropUser | backend/src/models/groups.js:19-54 | deleting a user removes the user, the groups they own with those groups' rows, and their own memberships and messages, and nothing else |
| Schema.DropGroupConsistent | backend/src/models/messages.js:21-38 | after a group is deleted with its cascades, no foreign key dangles |
| Schema.DropUserConsistent | backend/src/models/groups.js:19-54 | after a user is deleted with its cascades, no foreign key dangles |
| Seqs.FilterCount | backend/src/controllers/messages.js:19-22 | a `where` selection keeps each selected row as often as the table has it, and drops the rest |
| Seqs.FilterIsSubsequence | frontend/src/components/GroupManager.jsx:94-96 | a filter keeps the kept rows in their original order |
| Seqs.FilterKeepsKeysDistinct | backend/src/models/groups.js:7-11 | deleting rows cannot make a primary key repeat |
| Auth.TokenGuard | backend/src/middleware/auth.js:7-28 | no token, or a token whose signature fails, is 403; otherwise the request carries the decoded claims |
| Auth.AdminGuard | backend/src/middleware/auth.js:71-89 | passes exactly for a login whose token says admin; no login is 401, a non-admin 403 |
| Auth.OwnerGuardDecides | backend/src/middleware/auth.js:92-110 | for a signed-in caller: 404 exactly when the group is missing, through exactly when they own it, and 403 otherwise |
| Auth.MemberGuardDecides | backend/src/middleware/auth.js:112-128 | through exactly when a membership row links caller and group, and never 404 |
| Auth.MemberGuardImpliesGroup | backend/src/middleware/auth.js:112-128 | in a consistent database, passing the membership guard implies that the group and the caller exist |
| Auth.MembersAccessDecides | backend/src/middleware/auth.js:173-205 | an admin passes, even for a missing group; anyone else gets 404 for a missing group, and otherwise gets through exactly when owner or member, 403 if not |
| Auth.MembersAccessWidens | backend/src/middleware/auth.js:92-205 | whoever passes the owner guard, or the membership guard of an existing group, passes the member-list guard |
| Accounts.Mix | backend/src/controllers/user.js:10-12 | one pass over the password records exactly which character classes occur and whether all characters are allowed |
| Accounts.ValidPassword | backend/src/controllers/user.js:10-12 | true exactly when the password matches the pattern: at least 8 allowed characters, with a digit, an upper-case letter, a lower-case letter and a special character |
| Accounts.Login | backend/src/controllers/user.js:15-39 | a missing field is 400; for the first user with that email, the reply is that user's claims exactly when the hash accepts the password, 403 otherwise; an unknown email is 403; a signed reply always belongs to a user with that email |
| Accounts.LoginHidesWhichCheckFailed | backend/src/controllers/user.js:21-38 | a wrong password for a known email gets the same answer as an unknown email |
| Accounts.SelectColumns | backend/src/controllers/user.js:111-120 | the update takes name and email as given and the hash of the password, exactly for the fields present, and no other column |
| Accounts.PatchRows | backend/src/controllers/user.js:124 | only the row with that id takes the patch; ids, and their distinctness, are kept |
| Accounts.PasswordChangeVerdict | backend/src/controllers/user.js:139-153 | no login is 401; a missing or weak password is 400; 200 exactly when signed in with a valid password |
| Ordering.NewestFirst | backend/src/controllers/messages.js:21 | a permutation of the messages, newest first |
| Ordering.OldestFirst | frontend/src/components/GroupChat.jsx:19-23 | a permutation of the messages, oldest first |
| Ordering.SortedUnique | frontend/src/components/GroupChat.jsx:19-23 | with distinct timestamps, two oldest-first lists of the same messages are equal |
| Ordering.ResortRestoresChronology | frontend/src/components/GroupChat.jsx:19-23 | re-sorting the server's newest-first list oldest first gives the chronological order, whatever order the server sent |
| Queries.OwnedGroups | backend/src/controllers/groups.js:15 | exactly the groups the caller owns |
| Queries.MemberGroups | backend/src/controllers/groups.js:24-55 | 404 exactly when the caller has no user row; otherwise exactly the groups the caller has a membership row in, each listed once |
| Queries.GroupMembers | backend/src/controllers/groups.js:140-181 | 404 exactly when the group is missing; otherwise exactly the id, name and email of the users with a membership row in the group, each user listed once |
| Queries.ViewsOf | backend/src/controllers/groups.js:153-176 | a member view is listed exactly when some listed user has it |
| Queries.GroupMessages | backend/src/controllers/messages.js:4-32 | every message of the group, each as often as stored, no other, newest first |
| Queries.UserList | backend/src/controllers/user.js:97-103 | one row per user, in table order, listing exactly the ids the table has, each row carrying its user's name, email and admin flag and no password hash |
| Store.DropGroupSound | backend/src/controllers/groups.js:67-82 | deleting a group keeps the constraints, the distinct names and the auto-increment counters ahead of every id |
| Store.DropUserSound | backend/src/controllers/user.js:162-170 | deleting a user keeps the constraints, the distinct names and the auto-increment counters ahead of every id |
| Store.Db.CreateGroup | backend/src/controllers/groups.js:184-222 | 400 exactly for a missing or empty name and 409 exactly for a taken one, both with no change; a name over 128 characters or an owner with no user row is 500 with no change; 201 exactly when both inserts succeed, adding the group and the owner's membership; when the second insert fails the answer is 500 and the group stays, with no membership row |
| Store.Db.DeleteGroup | backend/src/controllers/groups.js:58-83 | 404 with no change for a missing group; otherwise 200 and the cascade delete of the group |
| Store.Db.AddUserToGroup | backend/src/controllers/groups.js:86-113 | 404 for an unknown user; 500 with no change for a missing group (foreign key) or a (gid, uid) row already there (the table's pair key); 200 exactly otherwise, appending the one (gid, uid) row |
| Store.Db.RemoveUserFromGroup | backend/src/controllers/groups.js:116-137 | always 200; every (gid, uid) row goes and nothing else changes |
| Store.Db.PostMessage | backend/src/controllers/messages.js:35-70 | missing or empty content is 400; 201 exactly when group and author exist, appending one message by the caller stamped `now`; 500 otherwise, with no change |
| Store.Db.Register | backend/src/controllers/user.js:52-95 | missing fields 400; a taken email 409, checked before the password; a weak password with a free email 400; all with no change; otherwise 201 and one non-admin user with the hashed password |
| Store.Db.NewUser | backend/src/controllers/user.js:40-50 | 200 exactly when all fields are present and the password is valid, adding one non-admin user with the hashed password; 400 with no change otherwise |
| Store.Db.UpdateUser | backend/src/controllers/user.js:104-126 | 400 exactly when no updatable field is present; otherwise 200, and only the row with that id changes, taking the given name and email and the hash of the password |
| Store.Db.DeleteUser | backend/src/controllers/user.js:162-170 | always 200; the database becomes the cascade delete of the user |
| Routes.Unfold | backend/src/routes/groups.js:20-38 | user routes run no guard; every other route runs the token guard first, then at most one more guard |
| Routes.UserRoutesOpen | backend/src/routes/user.js:5-9 | every user route, deletion and update included, reaches its handler without any token |
| Routes.TokenRequired | backend/src/routes/messages.js:7-10 | a group or message route without a validly signed token is 403; one that gets through carries the token's claims |
| Routes.OwnerRoutes | backend/src/routes/groups.js:26-32 | deleting a group and changing its members: 404 for a missing group, 403 for a non-owner, through exactly for the owner |
| Routes.MessageRoutes | backend/src/routes/messages.js:7-10 | reading and posting messages get through exactly for a member, 403 otherwise, even for a missing group |
| Routes.MembersRoute | backend/src/routes/groups.js:35 | listing members gets through exactly for an admin, or for the owner or a member of an existing group |
| Routes.ChainsNeverFail | backend/src/middleware/auth.js:92-205 | every guard that reads the login runs after the token guard, so a chain answers only 403 or 404 |
| Routes.RunPair | backend/src/routes/groups.js:26 | a chain of two guards stops at the first that answers, and the second sees the first's login |
| Routes.Serve | backend/src/routes/groups.js:20-38 | a guard's answer leaves the database unchanged; a new message comes only from a signed-in member posting under their own id; a new membership only from the owner's add or from group creation; a group disappears only through its owner's delete or its owner's account deletion; the reads and the login leave the database unchanged; a message disappears only with its group or through an account deletion; a membership row only with its group, through its own removal or through an account deletion; the users table changes only through account creation, update or deletion |
| Text.TrimStart | frontend/src/components/GroupChat.jsx:52 | a suffix of the input that starts with a non-space, and everything dropped is whitespace |
| Text.TrimEnd | frontend/src/components/GroupChat.jsx:52 | a prefix of the input that ends with a non-space, and everything dropped is whitespace |
| Text.Trim | frontend/src/components/GroupChat.jsx:52 | empty exactly when the input is all whitespace; otherwise both ends are non-spaces |
| Text.TrimIsSlice | frontend/src/components/GroupChat.jsx:52 | the trimmed string is a slice of the input, with only whitespace on either side |
| Text.Utf16Length | frontend/src/components/RegisterForm.jsx:18 | JavaScript's `length` counts UTF-16 code units: the number of characters plus the number outside the Basic Multilingual Plane, so between one and two per character |
| Text.Utf16LengthConcat | frontend/src/components/RegisterForm.jsx:18 | the length of a concatenation is the sum of the lengths |
| Text.Decimal | frontend/src/components/GroupChat.jsx:101 | a non-empty string of digits without a leading zero |
| Text.DecimalRoundTrip | frontend/src/components/GroupChat.jsx:101 | reading the printed digits back gives the number |
| Text.DecimalInjective | frontend/src/components/GroupChat.jsx:101 | two numbers print the same exactly when they are equal |
| Validators.FirstAt | frontend/src/components/RegisterForm.jsx:14 | the position of the first `@`, or the length when there is none |
| Validators.ValidEmailMatchesPattern | frontend/src/components/RegisterForm.jsx:13-15 | the scanning check accepts exactly the strings of the form a@b.c, where a, b and c are non-empty and hold neither whitespace nor `@` |
| Validators.ServerRuleIsStricter | frontend/src/components/RegisterForm.jsx:17-19 | every password the server accepts passes the client's length rule, but not the reverse: six lower-case letters, or five characters with one outside the Basic Multilingual Plane, pass the client only |
| Forms.FormError | frontend/src/components/RegisterForm.jsx:21-40 | no error exactly when all four checks pass; otherwise the message of the first failing check, in the order name, email, password, confirmation |
| Forms.FirstFailureWins | frontend/src/components/RegisterForm.jsx:21-40 | once a check fails, later fields do not change the message |
| Forms.EmailFeedback | frontend/src/components/LoginForm.jsx:14-22 | no error exactly when the field is empty or valid; otherwise "Email invalide" |
| Forms.PasswordFeedback | frontend/src/components/RegisterForm.jsx:52-62 | too short is reported first, then a mismatch with a typed confirmation |
| Forms.RegisterForm.ValidateForm | frontend/src/components/RegisterForm.jsx:21-40 | returns whether the form is valid and shows that error, fields unchanged |
| Forms.RegisterForm.ChangeName | frontend/src/components/RegisterForm.jsx:108 | only the name changes |
| Forms.RegisterForm.ChangeEmail | frontend/src/components/RegisterForm.jsx:42-50 | sets the email and shows its feedback |
| Forms.RegisterForm.ChangePassword | frontend/src/components/RegisterForm.jsx:52-62 | sets the password and shows its feedback against the confirmation |
| Forms.RegisterForm.ChangeConfirm | frontend/src/components/RegisterForm.jsx:64-72 | sets the confirmation; a mismatch with the password is shown |
| Forms.RegisterForm.Submit | frontend/src/components/RegisterForm.jsx:74-95 | sends exactly when the form is valid; on success clears every field and hands on the email typed; on failure shows the server's message, fields kept |
| Forms.LoginForm.ChangeEmail | frontend/src/components/LoginForm.jsx:14-22 | sets the email and shows its feedback |
| Forms.LoginForm.ChangePassword | frontend/src/components/LoginForm.jsx:61 | only the password changes |
| Forms.LoginForm.Submit | frontend/src/components/LoginForm.jsx:24-37 | sends exactly when the email is valid; otherwise "Email invalide"; a failed login shows its message |
| GroupViews.MessageOr | frontend/src/components/GroupManager.jsx:67 | the server's message when present and non-empty, else the fallback |
| GroupViews.Available | frontend/src/components/GroupManager.jsx:94-96 | exactly the users no member shares an id with, in the list's order |
| GroupViews.WithoutMember | frontend/src/components/GroupManager.jsx:80 | exactly the member rows with another id, in order |
| GroupViews.RemovedMemberBecomesAvailable | frontend/src/components/GroupManager.jsx:80-96 | a user removed locally is offered again; a listed user is not offered exactly when a member row has their id |
| GroupViews.GroupManager.Offered | frontend/src/components/GroupManager.jsx:94-96 | every user offered is listed and is not a member |
| GroupViews.GroupManager.FetchMembers | frontend/src/components/GroupManager.jsx:17-31 | success replaces the members; a refusal or an exception shows its error; loading ends either way |
| GroupViews.GroupManager.FetchAllUsers | frontend/src/components/GroupManager.jsx:34-43 | success replaces the user list; a failure changes nothing |
| GroupViews.GroupManager.AddMember | frontend/src/components/GroupManager.jsx:53-72 | without a selection no request is made; success clears the selection and refetches; a failure shows the server's message or the fallback |
| GroupViews.GroupManager.RemoveMember | frontend/src/components/GroupManager.jsx:75-87 | success drops every local row with that id without refetching; a failure shows its error |
| GroupViews.AuthorLabel | frontend/src/components/GroupChat.jsx:101 | never empty: the author's name, else their email, else "Utilisateur #" and the id |
| GroupViews.FallbackLabelsIdentify | frontend/src/components/GroupChat.jsx:101 | two fallback labels are equal exactly when the author ids are |
| GroupViews.GroupChat.FetchMessages | frontend/src/components/GroupChat.jsx:14-32 | success shows the received messages oldest first; a failure shows its error; loading ends |
| GroupViews.GroupChat.ChangeDraft | frontend/src/components/GroupChat.jsx:122 | only the draft changes |
| GroupViews.GroupChat.SendMessage | frontend/src/components/GroupChat.jsx:50-65 | nothing is sent exactly when the draft is all whitespace; otherwise the untrimmed draft is sent, success clears it and refetches, a failure shows its error |
| GroupViews.ChatShowsGroupChronologically | backend/src/controllers/messages.js:19-22 | the chat shows exactly the group's messages, oldest first, the same list as sorting the stored rows directly |

`Auth.OwnerGuard`, `Auth.MemberGuard` and `Auth.MembersAccessGuard` have
no contract of their own. What they decide is stated by the lemmas
`OwnerGuardDecides`, `MemberGuardDecides` and `MembersAccessDecides`.
The same holds for `GroupManager.RemoveDisabled` (the remove button is
disabled on the viewer's own row, GroupManager.jsx:163) and
`GroupChat.IsOwn` (GroupChat.jsx:97), which are plain predicates.

## Left out

- Token signatures and bcrypt are parameters, not models of the `jws`
  and `bcrypt` libraries. The two account-creation paths use different
  bcrypt cost factors, which the `hash` parameter hides.
- Sequelize's queries are read as row selections. Its SQL, its
  connection handling and the `updatedb` setup script are not modelled.
- Every request is one atomic step: concurrent requests and the
  interleavings of the client's asynchronous calls are not modelled.
- Path parameters are modelled as numeric ids. A non-numeric `:gid` or
  `:id` is not modelled.
- The users model (users.js) is not part of this model. A new user's
  `isAdmin` is taken to be false, and the database-level uniqueness of
  emails is not modelled: `newUser` can store a second user with a taken
  email.
- Store.Db.PostMessage: the content column is declared `STRING(128)`
  (models/messages.js:12-15) without a validator, and the controller does
  not check the length. Whether the database rejects longer content
  depends on the database engine, which is not modelled. The model
  accepts content of any length.
- Accounts.PasswordChangeVerdict: models only the checks of
  `updatePassword`. The write that follows them is not modelled, and
  neither is the route, which does not exist. That write selects rows
  with `{ where: { email: req.login } }` (user.js:157), comparing the
  email column with the whole claims object.
- Auth.TokenGuard, Routes.ChainsNeverFail: a token the `jws` library
  cannot split into its three parts makes that library throw, which
  would answer 500. The model treats such a token as a bad signature
  (403), so "a chain answers only 403 or 404" holds only under that
  reading.
- Request bodies are maps from field names to strings. A JSON value that
  is not a string (`0`, `false`, `null`, a number or an object) is not
  modelled, and neither is the way the handlers' truthiness checks and
  `has` treat such values.
- GroupViews.GroupManager.AddMember, GroupViews.GroupChat.SendMessage:
  a success that triggers a refetch does not itself change `loading`.
  The refetch sets `loading` to true when it starts (GroupManager.jsx:18,
  GroupChat.jsx:15) and to false when it ends, and the model represents
  only its end, with `FetchMembers` or `FetchMessages`.
- Ordering.NewestFirst, Ordering.OldestFirst: ties in `createdAt` are
  ordered by the sort's own choice. The results about the order shown
  hold when no two messages share a timestamp.
- The errorHandler that turns a thrown code into its status is modelled
  only through the statuses the handlers return.
- The client's HTML validation (`required`, `type="email"`), the scroll
  effect, `formatDate`, the tab switching and the rendering of the
  screens are not modelled.
- The client service modules and the authentication context are
  replaced by what their calls resolve to. The context's `register` call
  posts to a path that is not routed; that path is not modelled.
