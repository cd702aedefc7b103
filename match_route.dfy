/**
 * `POST /api/match`: a signed-in user offers to help with a request. The checks run in order
 * (signed in, the request exists, it is not the caller's own, its tags parse, the caller has a
 * user row, the caller's skills parse, the tags and skills overlap), then a chat is created
 * and the request is marked matched.
 */
module MatchRoute {
  import opened Common
  import opened Text
  import opened Json
  import opened Api
  import opened Db

  const RequestNotFound := "Help request not found"
  const OwnRequest := "Cannot match with your own request"
  const UserNotFound := "User not found"
  const NoSkillMatch := "Your skills don't match this request"

  /** One tag and one skill overlap when either, lower-cased, contains the other. */
  predicate Overlaps(tag: string, skill: string) {
    Includes(Lower(skill), Lower(tag)) || Includes(Lower(tag), Lower(skill))
  }

  /** `skills.some(skill => ...)` for one tag. */
  function SomeSkill(tag: string, skills: seq<string>): (r: bool)
    ensures r <==> exists j :: 0 <= j < |skills| && Overlaps(tag, skills[j])
  {
    if skills == [] then false
    else Overlaps(tag, skills[0]) || SomeSkill(tag, skills[1..])
  }

  /** `hasMatchingTags`: `tags.some(tag => skills.some(skill => ...))`. */
  function HasMatchingTags(tags: seq<string>, skills: seq<string>): (r: bool)
    ensures r <==> exists i, j :: 0 <= i < |tags| && 0 <= j < |skills| && Overlaps(tags[i], skills[j])
  {
    if tags == [] then false
    else SomeSkill(tags[0], skills) || HasMatchingTags(tags[1..], skills)
  }

  /** The overlap test does not care which list holds the tags and which the skills. */
  lemma HasMatchingTagsSymmetric(tags: seq<string>, skills: seq<string>)
    ensures HasMatchingTags(tags, skills) == HasMatchingTags(skills, tags)
  {
    if HasMatchingTags(tags, skills) {
      var i, j :| 0 <= i < |tags| && 0 <= j < |skills| && Overlaps(tags[i], skills[j]);
      assert Overlaps(skills[j], tags[i]);
    }
    if HasMatchingTags(skills, tags) {
      var j, i :| 0 <= j < |skills| && 0 <= i < |tags| && Overlaps(skills[j], tags[i]);
      assert Overlaps(tags[i], skills[j]);
    }
  }

  /** Two lists that agree letter-case aside, element by element. */
  predicate SameUpToCase(a: seq<string>, b: seq<string>) {
    |a| == |b| && forall i :: 0 <= i < |a| ==> Lower(a[i]) == Lower(b[i])
  }

  /** Re-casing the tags or the skills does not change whether they overlap. */
  lemma HasMatchingTagsIgnoresCase(tags: seq<string>, tags': seq<string>,
                                   skills: seq<string>, skills': seq<string>)
    requires SameUpToCase(tags, tags') && SameUpToCase(skills, skills')
    ensures HasMatchingTags(tags, skills) == HasMatchingTags(tags', skills')
  {
    if HasMatchingTags(tags, skills) {
      var i, j :| 0 <= i < |tags| && 0 <= j < |skills| && Overlaps(tags[i], skills[j]);
      assert Overlaps(tags'[i], skills'[j]);
    }
    if HasMatchingTags(tags', skills') {
      var i, j :| 0 <= i < |tags'| && 0 <= j < |skills'| && Overlaps(tags'[i], skills'[j]);
      assert Overlaps(tags[i], skills[j]);
    }
  }

  /**
   * The reject/score rule: `None` is the rejection (a non-empty tag list with no overlap);
   * otherwise the score is 1 with an overlap and 0.5 for an empty tag list.
   */
  function Score(tags: seq<string>, skills: seq<string>): (r: Option<real>)
    ensures r.None? <==> tags != [] && !HasMatchingTags(tags, skills)
    ensures r == Some(1.0) <==> HasMatchingTags(tags, skills)
    ensures r == Some(0.5) <==> tags == []
  {
    var hasMatchingTags := HasMatchingTags(tags, skills);
    if !hasMatchingTags && |tags| > 0 then None
    else Some(if hasMatchingTags then 1.0 else 0.5)
  }

  /**
   * Whether the match goes through, and with which score, for a user and a request in a
   * given state of the two tables. The request's status plays no part.
   */
  function Admit(users: map<UserId, User>, requests: map<RequestId, HelpRequest>,
                 caller: Option<UserId>, requestId: RequestId): (r: Response<real>)
    ensures r.Ok? ==> caller.Some? && requestId in requests && caller.value in users
                      && requests[requestId].userId != caller.value
    ensures r.Ok? ==> r.value == 1.0 || r.value == 0.5
    ensures caller.None? ==> r == Fail(Unauthorized)
    ensures caller.Some? && requestId !in requests ==> r == Fail(NotFound(RequestNotFound))
    ensures caller.Some? && requestId in requests && requests[requestId].userId == caller.value
            ==> r == Fail(BadRequest(OwnRequest, None))
  {
    if caller.None? then Fail(Unauthorized)
    else if requestId !in requests then Fail(NotFound(RequestNotFound))
    else
      var request := requests[requestId];
      if request.userId == caller.value then Fail(BadRequest(OwnRequest, None))
      else match ParseColumn(request.tags)
      case None => Fail(InternalError)
      case Some(tags) =>
        if caller.value !in users then Fail(NotFound(UserNotFound))
        else match ParseColumn(users[caller.value].skills)
        case None => Fail(InternalError)
        case Some(skills) =>
          match Score(tags, skills)
          case None => Fail(BadRequest(NoSkillMatch, Some(0.0)))
          case Some(score) => Ok(score)
  }

  /**
   * On tables that keep the store's invariant, the two 500 paths (a tags or skills column
   * that is not a list) cannot be taken: every refusal is one of the client errors.
   */
  lemma AdmitNoInternalError(users: map<UserId, User>, requests: map<RequestId, HelpRequest>,
                             chats: seq<Chat>, nextId: nat, caller: Option<UserId>, requestId: RequestId)
    requires Consistent(users, requests, chats, nextId)
    ensures Admit(users, requests, caller, requestId) != Fail(InternalError)
  {
  }

  /** The status is never consulted: re-matching a matched request is admitted as before. */
  lemma AdmitIgnoresStatus(users: map<UserId, User>, requests: map<RequestId, HelpRequest>,
                           caller: Option<UserId>, requestId: RequestId, status: string)
    requires requestId in requests
    ensures Admit(users, requests[requestId := requests[requestId].(status := status)], caller, requestId)
            == Admit(users, requests, caller, requestId)
  {
  }

  /** A request with no tags is admitted with score 0.5 for any other user with a row. */
  lemma EmptyTagsAdmitted(users: map<UserId, User>, requests: map<RequestId, HelpRequest>,
                          caller: UserId, requestId: RequestId)
    requires requestId in requests && requests[requestId].userId != caller
    requires caller in users && ParseColumn(requests[requestId].tags) == Some([])
    requires ParseColumn(users[caller].skills).Some?
    ensures Admit(users, requests, Some(caller), requestId) == Ok(0.5)
  {
  }

  /** A non-empty tag list sharing no overlap with the skills is rejected with score 0. */
  lemma NoOverlapRejected(users: map<UserId, User>, requests: map<RequestId, HelpRequest>,
                          caller: UserId, requestId: RequestId, tags: seq<string>, skills: seq<string>)
    requires requestId in requests && requests[requestId].userId != caller && caller in users
    requires ParseColumn(requests[requestId].tags) == Some(tags) && tags != []
    requires ParseColumn(users[caller].skills) == Some(skills)
    requires forall i, j :: 0 <= i < |tags| && 0 <= j < |skills| ==> !Overlaps(tags[i], skills[j])
    ensures Admit(users, requests, Some(caller), requestId) == Fail(BadRequest(NoSkillMatch, Some(0.0)))
  {
  }

  /** The chat a successful match creates: the owner as seeker, the caller as helper. */
  function NewChat(id: ChatId, request: HelpRequest, caller: UserId): (c: Chat)
    ensures c.helpRequestId == request.id && |c.participants| == 2
    ensures c.participants[0] == Participant(request.userId, Seeker)
    ensures c.participants[1] == Participant(caller, Helper)
  {
    Chat(id, request.id, [Participant(request.userId, Seeker), Participant(caller, Helper)])
  }

  /** The success payload: the chat and the match score. */
  datatype MatchResult = MatchResult(chat: Chat, matchScore: real)

  /**
   * The handler's two writes once the match is admitted: a chat pairing the request's owner,
   * as seeker, with the caller, as helper, then the request's status set to "matched".
   */
  method RecordMatch(store: Store, requestId: RequestId, caller: UserId) returns (chat: Chat)
    requires store.Valid()
    requires requestId in store.requests && store.requests[requestId].userId != caller
    modifies store
    ensures store.Valid()
    ensures chat == NewChat(old(store.nextId), old(store.requests)[requestId], caller)
    ensures store.chats == old(store.chats) + [chat]
    ensures store.requests == old(store.requests)[requestId := old(store.requests)[requestId].(status := Matched)]
    ensures store.users == old(store.users) && store.nextId == old(store.nextId) + 1
  {
    var owner := store.requests[requestId].userId;
    chat := Chat(store.nextId, requestId, [Participant(owner, Seeker), Participant(caller, Helper)]);
    assert OwnerNotHelper(chat, owner);
    AddChatConsistent(store.users, store.requests, store.chats, store.nextId, chat, Matched);
    // Create the chat with its two participants.
    var chatId := store.FreshId();
    store.chats := store.chats + [chat];
    // Then update the request's status.
    store.requests := store.requests[requestId := store.requests[requestId].(status := Matched)];
  }

  /**
   * The handler. It fails exactly as `Admit` says, leaving the store as it was; on success it
   * appends one chat and sets the request's status to "matched", and changes nothing else.
   */
  method Post(store: Store, caller: Option<UserId>, requestId: RequestId) returns (r: Response<MatchResult>)
    requires store.Valid()
    modifies store
    ensures store.Valid()
    ensures var verdict := Admit(old(store.users), old(store.requests), caller, requestId);
      if verdict.Fail? then
        r == Fail(verdict.error)
        && store.users == old(store.users) && store.requests == old(store.requests)
        && store.chats == old(store.chats) && store.nextId == old(store.nextId)
      else
        var chat := NewChat(old(store.nextId), old(store.requests)[requestId], caller.value);
        && r == Ok(MatchResult(chat, verdict.value))
        && store.chats == old(store.chats) + [chat]
        && store.requests == old(store.requests)[requestId := old(store.requests)[requestId].(status := Matched)]
        && store.users == old(store.users)
        && store.nextId == old(store.nextId) + 1
  {
    ghost var verdict := Admit(store.users, store.requests, caller, requestId);
    if caller.None? {
      return Fail(Unauthorized);
    }
    var userId := caller.value;
    if requestId !in store.requests {
      return Fail(NotFound(RequestNotFound));
    }
    var helpRequest := store.requests[requestId];
    if helpRequest.userId == userId {
      return Fail(BadRequest(OwnRequest, None));
    }
    var requestTags := ParseColumn(helpRequest.tags);
    if requestTags.None? {
      assert false;
      return Fail(InternalError);
    }
    if userId !in store.users {
      assert verdict == Fail(NotFound(UserNotFound));
      return Fail(NotFound(UserNotFound));
    }
    var userSkills := ParseColumn(store.users[userId].skills);
    if userSkills.None? {
      assert false;
      return Fail(InternalError);
    }
    var hasMatchingTags := HasMatchingTags(requestTags.value, userSkills.value);
    if !hasMatchingTags && |requestTags.value| > 0 {
      assert verdict == Fail(BadRequest(NoSkillMatch, Some(0.0)));
      return Fail(BadRequest(NoSkillMatch, Some(0.0)));
    }
    assert verdict == Ok(if hasMatchingTags then 1.0 else 0.5);
    var chat := RecordMatch(store, requestId, userId);
    r := Ok(MatchResult(chat, if hasMatchingTags then 1.0 else 0.5));
  }
}
