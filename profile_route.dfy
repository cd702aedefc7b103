/**
 * `/api/profile`: `GET` returns the caller's profile with the skills column decoded; `PATCH`
 * writes the fields the body supplies, each under its own guard, and returns the updated
 * profile the same way.
 */
module ProfileRoute {
  import opened Common
  import opened Json
  import opened Api
  import opened Db

  const UserNotFound := "User not found"

  /** The selected columns of a user row, with `skills` decoded from its JSON text. */
  datatype Profile = Profile(
    id: UserId,
    name: string,
    email: string,
    bio: Option<string>,
    skills: seq<string>,
    reputation: real,
    isOnline: bool)

  /**
   * The response body built from a user row: the row's columns, and the skills read with
   * `JSON.parse(skills || "[]")`; a column that does not parse makes the handler fail.
   */
  function View(u: User): (r: Response<Profile>)
    ensures r.Ok? <==> ParseColumn(u.skills).Some?
    ensures r.Fail? ==> r.error == InternalError
    ensures r.Ok? ==> r.value.skills == ParseColumn(u.skills).value
    ensures r.Ok? ==> && r.value.id == u.id && r.value.name == u.name && r.value.email == u.email
                      && r.value.bio == u.bio && r.value.reputation == u.reputation
                      && r.value.isOnline == u.isOnline
  {
    match ParseColumn(u.skills)
    case None => Fail(InternalError)
    case Some(skills) => Ok(Profile(u.id, u.name, u.email, u.bio, skills, u.reputation, u.isOnline))
  }

  /** A user created with the default `"[]"` skills column shows an empty skill list. */
  lemma NewUserView(id: UserId, email: string, name: string, image: Option<string>,
                    emailVerified: Option<Timestamp>)
    ensures View(NewUser(id, email, name, image, emailVerified)).Ok?
    ensures View(NewUser(id, email, name, image, emailVerified)).value.skills == []
  {
  }

  /** `GET`: without a session, Unauthorized; without a user row, "User not found". */
  function Get(store: Store, session: Option<UserId>): (r: Response<Profile>)
    reads store
    requires store.Valid()
    ensures session.None? ==> r == Fail(Unauthorized)
    ensures session.Some? && session.value !in store.users ==> r == Fail(NotFound(UserNotFound))
    ensures session.Some? && session.value in store.users ==> r == View(store.users[session.value])
    ensures r.Ok? ==> session.Some? && r.value.id == session.value
  {
    if session.None? then Fail(Unauthorized)
    else if session.value !in store.users then Fail(NotFound(UserNotFound))
    else
      View(store.users[session.value])
  }

  /**
   * On a store that keeps its invariant every skills column reads as a list, so `GET` never
   * takes its 500 path: a caller with a row always gets that row's profile.
   */
  lemma GetNoInternalError(store: Store, session: Option<UserId>)
    requires store.Valid()
    ensures Get(store, session) != Fail(InternalError)
    ensures session.Some? && session.value in store.users ==> Get(store, session).Ok?
  {
  }

  /** A body key that may be left out (`undefined`), as opposed to one sent with a value. */
  datatype Field<+T> = Absent | Present(value: T)

  /**
   * The `PATCH` body: `name` counts only when it is a non-empty string, `bio` whenever it
   * is sent (null included), `skills` whenever a list is sent (an empty one included) and
   * `isOnline` whenever it is sent.
   */
  datatype ProfilePatch = ProfilePatch(
    name: Option<string>,
    bio: Field<Option<string>>,
    skills: Option<seq<string>>,
    isOnline: Field<bool>)

  /** The row after the update's `data`, one conditional spread per field. */
  function ApplyPatch(u: User, p: ProfilePatch): (v: User)
    ensures Truthy(p.name) ==> v.name == p.name.value
    ensures !Truthy(p.name) ==> v.name == u.name
    ensures v.bio == if p.bio.Present? then p.bio.value else u.bio
    ensures p.skills.Some? ==> ParseColumn(v.skills) == Some(p.skills.value)
    ensures p.skills.None? ==> v.skills == u.skills
    ensures v.isOnline == if p.isOnline.Present? then p.isOnline.value else u.isOnline
    ensures v.id == u.id && v.email == u.email && v.reputation == u.reputation
    ensures v.image == u.image && v.emailVerified == u.emailVerified
  {
    ColumnRoundTrip(if p.skills.Some? then p.skills.value else []);
    u.(name := if Truthy(p.name) then p.name.value else u.name,
       bio := if p.bio.Present? then p.bio.value else u.bio,
       skills := if p.skills.Some? then Some(EncodeList(p.skills.value)) else u.skills,
       isOnline := if p.isOnline.Present? then p.isOnline.value else u.isOnline)
  }

  /** Sending the same body twice leaves the row as sending it once. */
  lemma PatchIdempotent(u: User, p: ProfilePatch)
    ensures ApplyPatch(ApplyPatch(u, p), p) == ApplyPatch(u, p)
  {
  }

  /** An empty body changes nothing. */
  lemma EmptyPatchKeepsRow(u: User)
    ensures ApplyPatch(u, ProfilePatch(None, Absent, None, Absent)) == u
  {
  }

  /** A supplied skill list replaces the stored one: the profile then shows exactly that list. */
  lemma PatchedSkillsShown(u: User, p: ProfilePatch)
    requires p.skills.Some?
    ensures View(ApplyPatch(u, p)) == Ok(Profile(u.id, ApplyPatch(u, p).name, u.email,
                                              ApplyPatch(u, p).bio, p.skills.value,
                                              u.reputation, ApplyPatch(u, p).isOnline))
  {
  }

  /** Patching a row whose skills column reads as a list gives a row whose profile can be shown. */
  lemma PatchKeepsViewable(u: User, p: ProfilePatch)
    requires ParseColumn(u.skills).Some?
    ensures ParseColumn(ApplyPatch(u, p).skills).Some?
    ensures View(ApplyPatch(u, p)).Ok?
  {
  }

  /**
   * `PATCH`: without a session, Unauthorized. A missing row makes the update throw, so the
   * handler fails and nothing is written. Otherwise the caller's row, and only it, is
   * updated; the response is the updated row's profile. The handler fails when that row's
   * skills column does not parse, after the write; on a store that keeps its invariant
   * this does not happen.
   */
  method Patch(store: Store, session: Option<UserId>, p: ProfilePatch) returns (r: Response<Profile>)
    requires store.Valid()
    modifies store
    ensures store.Valid()
    ensures store.requests == old(store.requests) && store.chats == old(store.chats)
    ensures store.nextId == old(store.nextId)
    ensures session.None? ==> r == Fail(Unauthorized) && store.users == old(store.users)
    ensures session.Some? && session.value !in old(store.users) ==>
              r == Fail(InternalError) && store.users == old(store.users)
    ensures session.Some? && session.value in old(store.users) ==>
              var updated := ApplyPatch(old(store.users)[session.value], p);
              && store.users == old(store.users)[session.value := updated]
              && r == View(updated)
    ensures session.Some? && session.value in old(store.users) ==> r.Ok?
  {
    if session.None? {
      return Fail(Unauthorized);
    }
    var id := session.value;
    if id !in store.users {
      return Fail(InternalError);
    }
    var user := ApplyPatch(store.users[id], p);
    UpdateUserConsistent(store.users, store.requests, store.chats, store.nextId, user);
    store.users := store.users[id := user];
    r := View(user);
  }
}
