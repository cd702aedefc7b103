/**
 * `/api/help-requests`: `GET` lists the open requests the caller may see, newest first;
 * `POST` stores a new request owned by the caller.
 */
module HelpRequestsRoute {
  import opened Common
  import opened Json
  import opened Api
  import opened Db

  /** The `where` clause: open, and either public or the viewer's own. */
  predicate Visible(request: HelpRequest, viewer: UserId) {
    request.status == Open && (request.privacy == Public || request.userId == viewer)
  }

  /** The rows the `where` clause keeps, in their order. */
  function OnlyVisible(rows: seq<HelpRequest>, viewer: UserId): (r: seq<HelpRequest>)
    ensures forall x :: multiset(r)[x] == if Visible(x, viewer) then multiset(rows)[x] else 0
  {
    if rows == [] then []
    else
      var rest := OnlyVisible(rows[1..], viewer);
      assert rows == [rows[0]] + rows[1..];
      if Visible(rows[0], viewer) then [rows[0]] + rest else rest
  }

  /** `orderBy: { createdAt: "desc" }`: no row is newer than one listed before it. */
  predicate NewestFirst(rows: seq<HelpRequest>) {
    forall i, j :: 0 <= i < j < |rows| ==> rows[i].createdAt >= rows[j].createdAt
  }

  /** Puts a row into a newest-first list after every row that is at least as new. */
  function Insert(x: HelpRequest, rows: seq<HelpRequest>): (r: seq<HelpRequest>)
    requires NewestFirst(rows)
    ensures NewestFirst(r)
    ensures multiset(r) == multiset(rows) + multiset{x}
    ensures r[0] == x || (rows != [] && r[0] == rows[0])
  {
    if rows == [] || rows[0].createdAt <= x.createdAt then
      PrependNewest(x, rows);
      [x] + rows
    else
      var rest := Insert(x, rows[1..]);
      assert rows == [rows[0]] + rows[1..];
      PrependNewest(rows[0], rest);
      [rows[0]] + rest
  }

  lemma PrependNewest(y: HelpRequest, rows: seq<HelpRequest>)
    requires NewestFirst(rows)
    requires rows == [] || rows[0].createdAt <= y.createdAt
    ensures NewestFirst([y] + rows)
  {
    var r := [y] + rows;
    forall i, j | 0 <= i < j < |r| ensures r[i].createdAt >= r[j].createdAt {
      if i == 0 && j > 1 {
        assert r[j] == rows[j - 1];
      }
    }
  }

  /** Sorts rows newest first (insertion sort); rows with equal timestamps keep no promised order. */
  function SortNewestFirst(rows: seq<HelpRequest>): (r: seq<HelpRequest>)
    ensures NewestFirst(r)
    ensures multiset(r) == multiset(rows)
  {
    if rows == [] then []
    else
      assert rows == [rows[0]] + rows[1..];
      Insert(rows[0], SortNewestFirst(rows[1..]))
  }

  /**
   * `GET`: without a session, Unauthorized; otherwise every visible stored request exactly
   * once, and nothing else, newest first. Reading the table changes nothing.
   */
  function Get(store: Store, session: Option<UserId>): (r: Response<seq<HelpRequest>>)
    reads store
    requires store.Valid()
    ensures session.None? ==> r == Fail(Unauthorized)
    ensures session.Some? ==> r.Ok? && NewestFirst(r.value)
    ensures session.Some? ==>
              forall x :: multiset(r.value)[x] == if x in store.requests.Values && Visible(x, session.value) then 1 else 0
  {
    if session.None? then Fail(Unauthorized)
    else
      var rows := TableRows(store.requests, store.nextId);
      assert forall x :: x in store.requests.Values ==> x.id < store.nextId;
      Ok(SortNewestFirst(OnlyVisible(rows, session.value)))
  }

  /** Another user's request that is not public never reaches a viewer's listing. */
  lemma PrivateRequestsHidden(store: Store, viewer: UserId, x: HelpRequest)
    requires store.Valid()
    requires x.userId != viewer && x.privacy != Public
    ensures x !in Get(store, Some(viewer)).value
  {
    var listing := Get(store, Some(viewer)).value;
    assert multiset(listing)[x] == 0;
  }

  /** The JSON body of a `POST`; `tags` and `privacy` may be missing. */
  datatype CreateBody = CreateBody(
    title: string,
    description: string,
    category: string,
    tags: Option<seq<string>>,
    privacy: Option<string>)

  /**
   * The row `POST` stores: tags default to the empty list and privacy to "public" when
   * missing or empty; the status is the schema's default, passed in.
   */
  function NewRequest(id: RequestId, owner: UserId, body: CreateBody, status: string,
                      now: Timestamp): (r: HelpRequest)
    ensures r.id == id && r.userId == owner && r.status == status && r.createdAt == now
    ensures r.title == body.title && r.description == body.description && r.category == body.category
    ensures ParseColumn(r.tags) == Some(if body.tags.Some? then body.tags.value else [])
    ensures Truthy(body.privacy) ==> r.privacy == body.privacy.value
    ensures !Truthy(body.privacy) ==> r.privacy == Public
  {
    var tags := if body.tags.Some? then body.tags.value else [];
    ColumnRoundTrip(tags);
    HelpRequest(id, body.title, body.description, body.category,
                Some(EncodeList(tags)),
                if Truthy(body.privacy) then body.privacy.value else Public,
                status, owner, now)
  }

  /**
   * `POST`: without a session, Unauthorized; when the caller has no user row the owner
   * relation cannot be stored and the handler fails; otherwise one new request is added under
   * a fresh id and every existing one is left as it was.
   */
  method Post(store: Store, session: Option<UserId>, body: CreateBody, status: string,
              now: Timestamp) returns (r: Response<HelpRequest>)
    requires store.Valid()
    modifies store
    ensures store.Valid()
    ensures store.users == old(store.users) && store.chats == old(store.chats)
    ensures session.None? ==> r == Fail(Unauthorized)
    ensures session.Some? && session.value !in old(store.users) ==> r == Fail(InternalError)
    ensures r.Fail? ==> store.requests == old(store.requests) && store.nextId == old(store.nextId)
    ensures session.Some? && session.value in old(store.users) ==>
              var created := NewRequest(old(store.nextId), session.value, body, status, now);
              && r == Ok(created)
              && old(store.nextId) !in old(store.requests)
              && store.requests == old(store.requests)[old(store.nextId) := created]
              && store.nextId == old(store.nextId) + 1
  {
    if session.None? {
      return Fail(Unauthorized);
    }
    if session.value !in store.users {
      return Fail(InternalError);
    }
    AddRequestConsistent(store.users, store.requests, store.chats, store.nextId,
                         NewRequest(store.nextId, session.value, body, status, now));
    var id := store.FreshId();
    var helpRequest := NewRequest(id, session.value, body, status, now);
    store.requests := store.requests[id := helpRequest];
    r := Ok(helpRequest);
  }
}
