/**
 * Sign-in: the credentials provider's find-or-create by email, the Google `signIn` callback's
 * create-or-update, and the `jwt` and `session` callbacks that carry the user id into the
 * token and the session.
 */
module Auth {
  import opened Common
  import opened Text
  import opened Api
  import opened Db

  /**
   * `email.split("@")[0]`: the text before the first `@`, or the whole email when it has
   * none.
   */
  function EmailPrefix(email: string): (r: string)
    ensures |r| <= |email| && r == email[..|r|]
    ensures '@' !in r
    ensures |r| == |email| || email[|r|] == '@'
  {
    SplitFirst(email, '@');
    Split(email, '@')[0]
  }

  /** The prefix of `local@domain` is `local`, whatever the domain holds. */
  lemma EmailPrefixOfAddress(local: string, domain: string)
    requires '@' !in local
    ensures EmailPrefix(local + "@" + domain) == local
  {
    var email := local + "@" + domain;
    assert email[|local|] == '@';
    assert forall i :: 0 <= i < |local| ==> email[i] == local[i] && email[i] != '@';
  }

  /** An email without `@` is its own prefix. */
  lemma EmailPrefixWithoutAt(email: string)
    requires '@' !in email
    ensures EmailPrefix(email) == email
  {
  }

  /**
   * The user object a provider hands to the callbacks: `authorize`'s result for the
   * credentials provider, the provider's user for Google.
   */
  datatype SignInUser = SignInUser(id: UserId, email: Option<string>, name: Option<string>,
                                   image: Option<string>)

  /**
   * `authorize`: without an email (missing or empty), no user and no write. A known email
   * gives its row's id, email and name; an unknown one creates a row named by the email's
   * prefix, with skills `"[]"`. Afterwards the email belongs to exactly the returned id.
   */
  method Authorize(store: Store, email: Option<string>) returns (r: Option<SignInUser>)
    requires store.Valid()
    modifies store
    ensures store.Valid()
    ensures store.requests == old(store.requests) && store.chats == old(store.chats)
    ensures !Truthy(email) ==> r.None? && store.users == old(store.users) && store.nextId == old(store.nextId)
    ensures Truthy(email) && old(store.UserByEmail(email.value)).Some? ==>
              var k := old(store.UserByEmail(email.value)).value;
              && r == Some(SignInUser(k, email, Some(old(store.users)[k].name), None))
              && store.users == old(store.users) && store.nextId == old(store.nextId)
    ensures Truthy(email) && old(store.UserByEmail(email.value)).None? ==>
              var id := old(store.nextId);
              && id !in old(store.users)
              && store.users == old(store.users)[id := NewUser(id, email.value, EmailPrefix(email.value), None, None)]
              && store.nextId == id + 1
              && r == Some(SignInUser(id, email, Some(EmailPrefix(email.value)), None))
    ensures Truthy(email) ==> r.Some? && store.UserByEmail(email.value) == Some(r.value.id)
  {
    if !Truthy(email) {
      return None;
    }
    var found := store.UserByEmail(email.value);
    if found.Some? {
      var user := store.users[found.value];
      return Some(SignInUser(user.id, email, Some(user.name), None));
    }
    AddUserConsistent(store.users, store.requests, store.chats, store.nextId,
                      NewUser(store.nextId, email.value, EmailPrefix(email.value), None, None));
    var id := store.FreshId();
    var user := NewUser(id, email.value, EmailPrefix(email.value), None, None);
    store.users := store.users[id := user];
    r := Some(SignInUser(id, email, Some(user.name), None));
  }

  /**
   * Calling `authorize` twice with one email gives the same user both times, and leaves one
   * row with that email.
   */
  method AuthorizeTwice(store: Store, email: Option<string>) returns (first: Option<SignInUser>, second: Option<SignInUser>)
    requires store.Valid()
    modifies store
    ensures store.Valid()
    ensures first == second
    ensures Truthy(email) ==> first.Some?
    ensures Truthy(email) ==>
              forall k :: k in store.users && store.users[k].email == email.value ==> k == first.value.id
  {
    first := Authorize(store, email);
    second := Authorize(store, email);
  }

  datatype Account = Account(provider: string)

  /** What the Google profile adds: a name and a picture URL, either of which may be missing. */
  datatype OAuthProfile = OAuthProfile(name: Option<string>, picture: Option<string>)

  const Google := "google"

  predicate IsGoogle(account: Option<Account>) {
    account.Some? && account.value.provider == Google
  }

  /**
   * The row Google sign-in creates for a new email: the name falls back from the user's to
   * the profile's to the email's prefix, the image from the user's to the profile's picture,
   * and the email counts as verified now.
   */
  function GoogleNewUser(id: UserId, email: string, user: SignInUser, profile: Option<OAuthProfile>,
                         now: Timestamp): (u: User)
    ensures u.id == id && u.email == email && u.skills == Some("[]") && u.emailVerified == Some(now)
    ensures u.bio.None? && u.reputation == 0.0 && !u.isOnline
    ensures Truthy(user.name) ==> u.name == user.name.value
    ensures !Truthy(user.name) && profile.Some? && Truthy(profile.value.name) ==>
              u.name == profile.value.name.value
    ensures !Truthy(user.name) && !(profile.Some? && Truthy(profile.value.name)) ==>
              u.name == EmailPrefix(email)
    ensures Truthy(user.image) ==> u.image == user.image
    ensures !Truthy(user.image) ==> u.image == if profile.Some? then profile.value.picture else None
  {
    var profileName := if profile.Some? then profile.value.name else None;
    var picture := if profile.Some? then profile.value.picture else None;
    NewUser(id, email, Or(Or(user.name, profileName), Some(EmailPrefix(email))).value,
            Or(user.image, picture), Some(now))
  }

  /**
   * The update Google sign-in makes to a known email's row: an empty incoming name or image
   * keeps the stored one, and an earlier verification time is kept.
   */
  function GoogleMerge(u: User, user: SignInUser, now: Timestamp): (v: User)
    ensures Truthy(user.name) ==> v.name == user.name.value
    ensures !Truthy(user.name) ==> v.name == u.name
    ensures Truthy(user.image) ==> v.image == user.image
    ensures !Truthy(user.image) ==> v.image == u.image
    ensures v.emailVerified == if u.emailVerified.Some? then u.emailVerified else Some(now)
    ensures v.id == u.id && v.email == u.email && v.bio == u.bio && v.skills == u.skills
    ensures v.reputation == u.reputation && v.isOnline == u.isOnline
  {
    u.(name := Or(user.name, Some(u.name)).value,
       image := Or(user.image, u.image),
       emailVerified := if u.emailVerified.Some? then u.emailVerified else Some(now))
  }

  /** Signing in again with the same Google user changes nothing more, whenever it happens. */
  lemma GoogleMergeIdempotent(u: User, user: SignInUser, now: Timestamp, later: Timestamp)
    ensures GoogleMerge(GoogleMerge(u, user, now), user, later) == GoogleMerge(u, user, now)
  {
  }

  /**
   * The `signIn` callback. Other providers pass with no write. For Google, an email-less user
   * makes the lookup throw; otherwise a new email gets a row and a known one is updated, and
   * the callback passes.
   */
  method SignIn(store: Store, user: SignInUser, account: Option<Account>, profile: Option<OAuthProfile>,
                now: Timestamp) returns (r: Response<bool>)
    requires store.Valid()
    modifies store
    ensures store.Valid()
    ensures store.requests == old(store.requests) && store.chats == old(store.chats)
    ensures !IsGoogle(account) ==>
              r == Ok(true) && store.users == old(store.users) && store.nextId == old(store.nextId)
    ensures IsGoogle(account) && user.email.None? ==>
              r == Fail(InternalError) && store.users == old(store.users) && store.nextId == old(store.nextId)
    ensures IsGoogle(account) && user.email.Some? && old(store.UserByEmail(user.email.value)).None? ==>
              var id := old(store.nextId);
              && r == Ok(true)
              && id !in old(store.users)
              && store.users == old(store.users)[id := GoogleNewUser(id, user.email.value, user, profile, now)]
              && store.nextId == id + 1
    ensures IsGoogle(account) && user.email.Some? && old(store.UserByEmail(user.email.value)).Some? ==>
              var k := old(store.UserByEmail(user.email.value)).value;
              && r == Ok(true)
              && store.users == old(store.users)[k := GoogleMerge(old(store.users)[k], user, now)]
              && store.nextId == old(store.nextId)
  {
    if !IsGoogle(account) {
      return Ok(true);
    }
    if user.email.None? {
      return Fail(InternalError);
    }
    var email := user.email.value;
    var existingUser := store.UserByEmail(email);
    if existingUser.None? {
      AddUserConsistent(store.users, store.requests, store.chats, store.nextId,
                        GoogleNewUser(store.nextId, email, user, profile, now));
      var id := store.FreshId();
      store.users := store.users[id := GoogleNewUser(id, email, user, profile, now)];
    } else {
      var k := existingUser.value;
      UpdateUserConsistent(store.users, store.requests, store.chats, store.nextId,
                           GoogleMerge(store.users[k], user, now));
      store.users := store.users[k := GoogleMerge(store.users[k], user, now)];
    }
    r := Ok(true);
  }

  /** The JWT's payload as far as the app uses it. */
  class Token {
    var id: Option<UserId>

    constructor (id: Option<UserId>)
      ensures this.id == id
    {
      this.id := id;
    }
  }

  /**
   * The `jwt` callback: a user present at sign-in sets the token's id; for Google, the id of
   * the stored row with the user's email (when the email is non-empty and has a row) then
   * replaces it. Otherwise the token keeps its id.
   */
  method Jwt(token: Token, user: Option<SignInUser>, account: Option<Account>, store: Store)
    requires store.Valid()
    modifies token
    ensures IsGoogle(account) && user.Some? && Truthy(user.value.email)
            && store.UserByEmail(user.value.email.value).Some? ==>
              token.id == store.UserByEmail(user.value.email.value)
    ensures !(IsGoogle(account) && user.Some? && Truthy(user.value.email)
              && store.UserByEmail(user.value.email.value).Some?) ==>
              token.id == if user.Some? then Some(user.value.id) else old(token.id)
  {
    if user.Some? {
      token.id := Some(user.value.id);
    }
    if IsGoogle(account) && user.Some? && Truthy(user.value.email) {
      var dbUser := store.UserByEmail(user.value.email.value);
      if dbUser.Some? {
        token.id := dbUser;
      }
    }
  }

  class SessionUser {
    var id: Option<UserId>

    constructor ()
      ensures id.None?
    {
      id := None;
    }
  }

  class Session {
    var user: SessionUser?

    constructor (user: SessionUser?)
      ensures this.user == user
    {
      this.user := user;
    }
  }

  /** The `session` callback: the session's user, when there is one, takes the token's id. */
  method SessionCallback(session: Session, token: Token)
    modifies session.user
    ensures session.user != null ==> session.user.id == token.id
  {
    if session.user != null {
      session.user.id := token.id;
    }
  }

  /**
   * Google sign-in end to end: after `signIn`, `jwt` and `session`, the session carries the
   * id of the one stored row with the user's email.
   */
  method GoogleSignInFlow(store: Store, user: SignInUser, account: Option<Account>,
                          profile: Option<OAuthProfile>, now: Timestamp, token: Token, session: Session)
    returns (r: Response<bool>)
    requires store.Valid()
    requires IsGoogle(account) && Truthy(user.email)
    requires session.user != null
    modifies store, token, session.user
    ensures store.Valid()
    ensures r == Ok(true)
    ensures session.user.id.Some?
    ensures session.user.id.value in store.users
    ensures store.users[session.user.id.value].email == user.email.value
  {
    r := SignIn(store, user, account, profile, now);
    Jwt(token, Some(user), account, store);
    SessionCallback(session, token);
  }
}
