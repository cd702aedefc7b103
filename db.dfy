/**
 * The persistent store the route handlers share: the user table, the help-request table and
 * the chats with their participants. Ids come from one fresh-id counter.
 */
module Db {
  import opened Common
  import opened Json

  type UserId = nat
  type RequestId = nat
  type ChatId = nat
  /** A point in time (`new Date()`), supplied by the caller. */
  type Timestamp = int

  /**
   * A user row. `skills` is the JSON text of a list of strings (nullable); `reputation` is
   * carried along unchanged.
   */
  datatype User = User(
    id: UserId,
    email: string,
    name: string,
    image: Option<string>,
    emailVerified: Option<Timestamp>,
    bio: Option<string>,
    skills: Option<string>,
    reputation: real,
    isOnline: bool)

  /** A help-request row; `tags` is the JSON text of a list of strings. */
  datatype HelpRequest = HelpRequest(
    id: RequestId,
    title: string,
    description: string,
    category: string,
    tags: Option<string>,
    privacy: string,
    status: string,
    userId: UserId,
    createdAt: Timestamp)

  datatype Role = Seeker | Helper

  datatype Participant = Participant(userId: UserId, role: Role)

  /** A chat row together with the participant rows created with it. */
  datatype Chat = Chat(id: ChatId, helpRequestId: RequestId, participants: seq<Participant>)

  const Open := "open"
  const Matched := "matched"
  const Public := "public"

  /** A new user row with the schema's defaults: no bio, reputation 0, offline. */
  function NewUser(id: UserId, email: string, name: string, image: Option<string>,
                   emailVerified: Option<Timestamp>): (u: User)
    ensures u.id == id && u.email == email && u.name == name && u.skills == Some("[]")
  {
    User(id, email, name, image, emailVerified, None, Some("[]"), 0.0, false)
  }

  /** The email column is unique. */
  ghost predicate UniqueEmails(users: map<UserId, User>) {
    forall a, b :: a in users && b in users && users[a].email == users[b].email ==> a == b
  }

  /**
   * `findUnique({ where: { email } })` over the rows with ids below `bound`: an id whose row
   * has that email, or none when no such row exists.
   */
  function FindByEmail(users: map<UserId, User>, email: string, bound: nat): (r: Option<UserId>)
    ensures r.Some? ==> r.value in users && users[r.value].email == email && r.value < bound
    ensures r.None? ==> forall k :: k in users && k < bound ==> users[k].email != email
  {
    if bound == 0 then None
    else
      match FindByEmail(users, email, bound - 1)
      case Some(k) => Some(k)
      case None =>
        if bound - 1 in users && users[bound - 1].email == email then Some(bound - 1) else None
  }

  /** The rows of a table with ids below `bound`, in id order (a full scan). */
  function TableRows(table: map<RequestId, HelpRequest>, bound: nat): (rows: seq<HelpRequest>)
    requires forall k :: k in table ==> table[k].id == k
    ensures forall x :: multiset(rows)[x] == if x in table.Values && x.id < bound then 1 else 0
  {
    if bound == 0 then []
    else
      var before := TableRows(table, bound - 1);
      var here := if bound - 1 in table then [table[bound - 1]] else [];
      assert forall x :: x in table.Values && x.id == bound - 1 ==> bound - 1 in table && x == table[bound - 1];
      before + here
  }

  /** No helper of the chat is the given user (the owner of the chat's request). */
  predicate OwnerNotHelper(chat: Chat, owner: UserId) {
    forall j :: 0 <= j < |chat.participants| && chat.participants[j].role == Helper ==>
      chat.participants[j].userId != owner
  }

  /**
   * The store's invariant over its four parts: keys are the rows' ids and below the counter,
   * emails are unique, every request has an owner row, every `skills` and `tags` column reads
   * as a list, and chats refer to stored requests, never have the request's owner as helper,
   * and have increasing ids below the counter.
   */
  ghost predicate Consistent(users: map<UserId, User>, requests: map<RequestId, HelpRequest>,
                             chats: seq<Chat>, nextId: nat) {
    && (forall k :: k in users ==> users[k].id == k && k < nextId && ParseColumn(users[k].skills).Some?)
    && (forall k :: k in requests ==>
          requests[k].id == k && k < nextId && requests[k].userId in users && ParseColumn(requests[k].tags).Some?)
    && (forall i :: 0 <= i < |chats| ==>
          && chats[i].id < nextId && chats[i].helpRequestId in requests
          && OwnerNotHelper(chats[i], requests[chats[i].helpRequestId].userId))
    && (forall i, j :: 0 <= i < j < |chats| ==> chats[i].id < chats[j].id)
    && UniqueEmails(users)
  }

  /** A new user row under the next id, with an unused email and a readable skills column, keeps the invariant. */
  lemma AddUserConsistent(users: map<UserId, User>, requests: map<RequestId, HelpRequest>,
                          chats: seq<Chat>, nextId: nat, u: User)
    requires Consistent(users, requests, chats, nextId)
    requires u.id == nextId && forall k :: k in users ==> users[k].email != u.email
    requires ParseColumn(u.skills).Some?
    ensures Consistent(users[nextId := u], requests, chats, nextId + 1)
  {
  }

  /** Rewriting a user row, with its id and email as they were and readable skills, keeps the invariant. */
  lemma UpdateUserConsistent(users: map<UserId, User>, requests: map<RequestId, HelpRequest>,
                             chats: seq<Chat>, nextId: nat, u: User)
    requires Consistent(users, requests, chats, nextId)
    requires u.id in users && users[u.id].email == u.email
    requires ParseColumn(u.skills).Some?
    ensures Consistent(users[u.id := u], requests, chats, nextId)
  {
  }

  /** A new request under the next id, owned by a stored user, with readable tags, keeps the invariant. */
  lemma AddRequestConsistent(users: map<UserId, User>, requests: map<RequestId, HelpRequest>,
                             chats: seq<Chat>, nextId: nat, x: HelpRequest)
    requires Consistent(users, requests, chats, nextId)
    requires x.id == nextId && x.userId in users
    requires ParseColumn(x.tags).Some?
    ensures Consistent(users, requests[nextId := x], chats, nextId + 1)
  {
  }

  /**
   * A new chat under the next id for a stored request, whose helpers are not the request's
   * owner, with that request's status rewritten, keeps the invariant.
   */
  lemma AddChatConsistent(users: map<UserId, User>, requests: map<RequestId, HelpRequest>,
                          chats: seq<Chat>, nextId: nat, chat: Chat, status: string)
    requires Consistent(users, requests, chats, nextId)
    requires chat.id == nextId && chat.helpRequestId in requests
    requires OwnerNotHelper(chat, requests[chat.helpRequestId].userId)
    ensures Consistent(users, requests[chat.helpRequestId := requests[chat.helpRequestId].(status := status)],
                       chats + [chat], nextId + 1)
  {
  }

  class Store {
    var users: map<UserId, User>
    var requests: map<RequestId, HelpRequest>
    var chats: seq<Chat>
    var nextId: nat

    ghost predicate Valid()
      reads this
    {
      Consistent(users, requests, chats, nextId)
    }

    constructor ()
      ensures Valid()
      ensures users == map[] && requests == map[] && chats == [] && nextId == 0
    {
      users, requests, chats, nextId := map[], map[], [], 0;
    }

    /** The id of the user row with this email, if there is one. */
    function UserByEmail(email: string): (r: Option<UserId>)
      reads this
      requires Valid()
      ensures r.Some? ==> r.value in users && users[r.value].email == email
      ensures r.None? ==> forall k :: k in users ==> users[k].email != email
      ensures forall k :: k in users && users[k].email == email ==> r == Some(k)
    {
      FindByEmail(users, email, nextId)
    }

    /** Hands out a fresh id. */
    method FreshId() returns (id: nat)
      modifies this`nextId
      ensures id == old(nextId) && nextId == id + 1
    {
      id := nextId;
      nextId := nextId + 1;
    }
  }
}
