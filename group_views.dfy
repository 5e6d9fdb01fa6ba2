/** The group screens of the frontend: GroupManager.jsx (a group's members,
    adding and removing them) and GroupChat.jsx (a group's messages). Each
    component's state variables are the fields of an object and each
    handler a method. A request to the server is replaced by the reply it
    resolves to, given as a parameter; a handler that would start a request
    says so in its results. */
module GroupViews {
  import opened Wrappers
  import opened Seqs
  import opened Schema
  import opened Queries
  import opened Ordering
  import opened Text

  /** What a service call resolves to: the JSON body's `status`, `message`
      and `data`, or an exception caught by the component. */
  datatype Reply<T> = Reply(status: bool, message: Option<string>, data: Option<T>) | Thrown

  const ConnectionError := "Erreur de connexion au serveur"
  const MembersFetchError := "Erreur lors de la récupération des membres du groupe"
  const NoSelection := "Veuillez sélectionner un utilisateur"
  const AddError := "Erreur lors de l'ajout du membre"
  const RemoveError := "Erreur lors de la suppression du membre"
  const MessagesFetchError := "Erreur lors de la récupération des messages"
  const SendError := "Erreur lors de l'envoi du message"

  /** `response.message || fallback`: an absent or empty message gives way. */
  function MessageOr(message: Option<string>, fallback: string): (r: string)
    ensures message.Some? && message.value != "" ==> r == message.value
    ensures message.None? || message.value == "" ==> r == fallback
    ensures fallback != "" ==> r != ""
  {
    if message.Some? && message.value != "" then message.value else fallback
  }

  /** `availableUsers`: the users with no member sharing their id, in the
      order of the full list. */
  function Available(allUsers: seq<UserRow>, members: seq<MemberView>): (r: seq<UserRow>)
    ensures forall u :: u in r <==> u in allUsers && forall m :: m in members ==> m.id != u.id
    ensures IsSubsequence(r, allUsers)
  {
    var keep := (u: UserRow) => forall m :: m in members ==> m.id != u.id;
    FilterIsSubsequence(allUsers, keep);
    Filter(allUsers, keep)
  }

  /** `members.filter(member => member.id !== userId)`. */
  function WithoutMember(members: seq<MemberView>, id: Id): (r: seq<MemberView>)
    ensures forall m :: m in r <==> m in members && m.id != id
    ensures IsSubsequence(r, members)
  {
    var keep := (m: MemberView) => m.id != id;
    FilterIsSubsequence(members, keep);
    Filter(members, keep)
  }

  /** After a member is removed locally, the user is offered again by the
      add form, provided the full list has them and no other member row
      carries their id. */
  lemma RemovedMemberBecomesAvailable(allUsers: seq<UserRow>, members: seq<MemberView>, u: UserRow)
    requires u in allUsers
    ensures u in Available(allUsers, WithoutMember(members, u.id))
    ensures u !in Available(allUsers, members) <==> exists m :: m in members && m.id == u.id
  {
  }

  /** The state of GroupManager.jsx for the group `groupId`, seen by the
      user `viewerId`. `selected` is the value of the user menu, `None`
      for its empty first option. */
  class GroupManager {
    const groupId: Id
    const viewerId: Id
    var members: seq<MemberView>
    var allUsers: seq<UserRow>
    var selected: Option<Id>
    var loading: bool
    var error: string

    constructor (groupId: Id, viewerId: Id)
      ensures this.groupId == groupId && this.viewerId == viewerId
      ensures members == [] && allUsers == [] && selected == None && loading && error == ""
    {
      this.groupId, this.viewerId := groupId, viewerId;
      members, allUsers, selected, loading, error := [], [], None, true, "";
    }

    /** The users the add form offers. */
    function Offered(): (r: seq<UserRow>)
      reads this
      ensures forall u :: u in r ==> u in allUsers && forall m :: m in members ==> m.id != u.id
    {
      Available(allUsers, members)
    }

    /** The remove button of a row is disabled on the viewer's own row. */
    predicate RemoveDisabled(m: MemberView) {
      m.id == viewerId
    }

    /** `fetchMembers` (GroupManager.jsx:17-31), once its request resolves. */
    method FetchMembers(reply: Reply<seq<MemberView>>)
      modifies this
      ensures !loading && allUsers == old(allUsers) && selected == old(selected)
      ensures reply.Reply? && reply.status ==> members == reply.data.GetOr([]) && error == old(error)
      ensures reply.Reply? && !reply.status ==> members == old(members) && error == MembersFetchError
      ensures reply.Thrown? ==> members == old(members) && error == ConnectionError
    {
      match reply {
        case Thrown =>
          error := ConnectionError;
        case Reply(status, _, data) =>
          if status {
            members := data.GetOr([]);
          } else {
            error := MembersFetchError;
          }
      }
      loading := false;
    }

    /** `fetchAllUsers`, once its request resolves: a failure changes
        nothing on screen. */
    method FetchAllUsers(reply: Reply<seq<UserRow>>)
      modifies this
      ensures reply.Reply? && reply.status ==> allUsers == reply.data.GetOr([])
      ensures !(reply.Reply? && reply.status) ==> allUsers == old(allUsers)
      ensures members == old(members) && selected == old(selected) && error == old(error) && loading == old(loading)
    {
      if reply.Reply? && reply.status {
        allUsers := reply.data.GetOr([]);
      }
    }

    /** `handleAddMember` (GroupManager.jsx:53-72). `request` is the user
        id the add request carries, `None` when no request is made;
        `refetch` says whether the member list is fetched again. */
    method AddMember(reply: Reply<()>) returns (request: Option<Id>, refetch: bool)
      modifies this
      ensures request == old(selected)
      ensures members == old(members) && allUsers == old(allUsers) && loading == old(loading)
      ensures request.None? ==> error == NoSelection && selected == old(selected) && !refetch
      ensures request.Some? && reply.Reply? && reply.status ==> refetch && selected == None && error == old(error)
      ensures request.Some? && reply.Reply? && !reply.status ==>
        !refetch && selected == old(selected) && error == MessageOr(reply.message, AddError)
      ensures request.Some? && reply.Thrown? ==> !refetch && selected == old(selected) && error == ConnectionError
    {
      if selected.None? {
        error := NoSelection;
        return None, false;
      }
      request := selected;
      match reply
      case Thrown =>
        error := ConnectionError;
        refetch := false;
      case Reply(status, message, _) =>
        if status {
          refetch := true;
          selected := None;
        } else {
          error := MessageOr(message, AddError);
          refetch := false;
        }
    }

    /** `handleRemoveMember` (GroupManager.jsx:75-87): on success the
        local list drops every row with that id, without asking the server
        again. */
    method RemoveMember(userId: Id, reply: Reply<()>)
      modifies this
      ensures allUsers == old(allUsers) && selected == old(selected) && loading == old(loading)
      ensures reply.Reply? && reply.status ==> members == WithoutMember(old(members), userId) && error == old(error)
      ensures reply.Reply? && !reply.status ==> members == old(members) && error == MessageOr(reply.message, RemoveError)
      ensures reply.Thrown? ==> members == old(members) && error == ConnectionError
    {
      match reply
      case Thrown =>
        error := ConnectionError;
      case Reply(status, message, _) =>
        if status {
          members := WithoutMember(members, userId);
        } else {
          error := MessageOr(message, RemoveError);
        }
    }
  }

  /** A message's author, as a message row might carry it. */
  datatype Author = Author(name: string, email: string)

  /** The label above a message: the author's name, else their email,
      else "Utilisateur #" and the author's id. */
  function AuthorLabel(user: Option<Author>, userId: Id): (r: string)
    ensures r != ""
    ensures user.Some? && user.value.name != "" ==> r == user.value.name
    ensures user.Some? && user.value.name == "" && user.value.email != "" ==> r == user.value.email
    ensures user.None? || (user.value.name == "" && user.value.email == "") ==>
      r == "Utilisateur #" + Decimal(userId)
  {
    if user.Some? && user.value.name != "" then user.value.name
    else if user.Some? && user.value.email != "" then user.value.email
    else "Utilisateur #" + Decimal(userId)
  }

  /** The message rows `getGroupMessages` sends carry no author, so every
      label is the fallback one, and two labels are equal exactly when the
      authors' ids are. */
  lemma FallbackLabelsIdentify(a: Id, b: Id)
    ensures AuthorLabel(None, a) == AuthorLabel(None, b) <==> a == b
  {
    if AuthorLabel(None, a) == AuthorLabel(None, b) {
      var p := "Utilisateur #";
      assert Decimal(a) == AuthorLabel(None, a)[|p|..];
      assert Decimal(b) == AuthorLabel(None, b)[|p|..];
      DecimalInjective(a, b);
    }
  }

  /** The state of GroupChat.jsx for the group `groupId`, seen by the user
      `viewerId`. `draft` is the message input. */
  class GroupChat {
    const groupId: Id
    const viewerId: Id
    var messages: seq<Message>
    var draft: string
    var loading: bool
    var error: string

    constructor (groupId: Id, viewerId: Id)
      ensures this.groupId == groupId && this.viewerId == viewerId
      ensures messages == [] && draft == "" && loading && error == ""
    {
      this.groupId, this.viewerId := groupId, viewerId;
      messages, draft, loading, error := [], "", true, "";
    }

    /** A message is shown as the viewer's own when its author id is theirs. */
    predicate IsOwn(m: Message) {
      m.userId == viewerId
    }

    /** `fetchMessages` (GroupChat.jsx:14-32), once its request resolves:
        the list shown is a sorted copy of the one received, oldest first. */
    method FetchMessages(reply: Reply<seq<Message>>)
      modifies this
      ensures !loading && draft == old(draft)
      ensures reply.Reply? && reply.status ==> messages == OldestFirst(reply.data.GetOr([])) && error == old(error)
      ensures reply.Reply? && !reply.status ==> messages == old(messages) && error == MessagesFetchError
      ensures reply.Thrown? ==> messages == old(messages) && error == ConnectionError
    {
      match reply {
        case Thrown =>
          error := ConnectionError;
        case Reply(status, _, data) =>
          if status {
            messages := OldestFirst(data.GetOr([]));
          } else {
            error := MessagesFetchError;
          }
      }
      loading := false;
    }

    /** The draft input's change handler. */
    method ChangeDraft(value: string)
      modifies this
      ensures draft == value && messages == old(messages) && error == old(error) && loading == old(loading)
    {
      draft := value;
    }

    /** `handleSendMessage` (GroupChat.jsx:50-65). A blank draft sends
        nothing; otherwise `sent` is the text posted, as typed (it is not
        trimmed), and `refetch` says whether the messages are fetched again. */
    method SendMessage(reply: Reply<Message>) returns (sent: Option<string>, refetch: bool)
      modifies this
      ensures sent.None? <==> Blank(old(draft))
      ensures sent.Some? ==> sent.value == old(draft)
      ensures messages == old(messages) && loading == old(loading)
      ensures sent.None? ==> draft == old(draft) && error == old(error) && !refetch
      ensures sent.Some? && reply.Reply? && reply.status ==> draft == "" && refetch && error == old(error)
      ensures sent.Some? && reply.Reply? && !reply.status ==>
        draft == old(draft) && !refetch && error == MessageOr(reply.message, SendError)
      ensures sent.Some? && reply.Thrown? ==> draft == old(draft) && !refetch && error == ConnectionError
    {
      if Trim(draft) == [] {
        return None, false;
      }
      sent := Some(draft);
      match reply
      case Thrown =>
        error := ConnectionError;
        refetch := false;
      case Reply(status, message, _) =>
        if status {
          draft := "";
          refetch := true;
        } else {
          error := MessageOr(message, SendError);
          refetch := false;
        }
    }
  }

  /** What the chat shows for a group the server answers for: the group's
      messages, oldest first, whatever order they were sent in. */
  lemma ChatShowsGroupChronologically(t: Tables, gid: Id)
    requires DistinctTimes(t.messages)
    ensures var shown := OldestFirst(GroupMessages(t.messages, gid));
      && (forall m :: m in shown <==> m in t.messages && m.groupId == gid)
      && (forall i, j :: 0 <= i < j < |shown| ==> shown[i].createdAt <= shown[j].createdAt)
      && shown == OldestFirst(Filter(t.messages, (m: Message) => m.groupId == gid))
  {
    var keep := (m: Message) => m.groupId == gid;
    var sent := GroupMessages(t.messages, gid);
    var mine := Filter(t.messages, keep);
    forall m ensures multiset(sent)[m] == multiset(mine)[m] {
      FilterCount(t.messages, keep, m);
    }
    assert multiset(sent) == multiset(mine);
    assert DistinctTimes(sent) by {
      forall x, y | x in sent && y in sent && x.createdAt == y.createdAt ensures x == y {
        assert x in t.messages && y in t.messages;
      }
    }
    var a, b := OldestFirst(sent), OldestFirst(mine);
    SortedUnique(a, b);
    assert forall m :: m in a <==> m in multiset(sent);
  }
}
