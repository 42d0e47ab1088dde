/**
 * The identity-provider webhook: three gates (the signing secret, the three
 * signature headers, the signature check) and then one user action per event
 * type. Reading the request and checking the signature are outside the model:
 * the handler receives the event the check produced, or `None` when it threw.
 * Pushing the new user's id back to the provider is an output of the handler,
 * not a call.
 */
module ClerkWebhook {
  import opened Common
  import opened Models
  import opened Errors
  import Db
  import Actions

  datatype SvixHeaders = SvixHeaders(id: Option<string>, timestamp: Option<string>, signature: Option<string>)

  /** The user fields of an event; a null name, username or image arrives as "". */
  datatype UserData = UserData(
    id: string,
    emailAddresses: seq<string>,
    imageUrl: string,
    firstName: string,
    lastName: string,
    username: string)

  datatype ClerkEvent = ClerkEvent(eventType: string, data: UserData)

  const UserCreated := "user.created"
  const UserUpdated := "user.updated"
  const UserDeleted := "user.deleted"

  const MissingSecret := "Please add WEBHOOK_SECRET from Clerk Dashboard to .env or .env.local"
  const NoHeaders := "Error occured -- no svix headers"
  const VerifyFailed := "Error occured"
  /** What the runtime throws when a created user has no email address. */
  const NoEmailTypeError := "Cannot read properties of undefined (reading 'email_address')"

  /** What the handler decides to do once the gates are passed or have refused. */
  datatype Step =
    | Throw(t: Thrown)
    | BadRequest(text: string)
    | CallCreate(user: UserParams)
    | CallUpdate(clerkId: string, patch: UserPatch)
    | CallDelete(clerkId: string)
    | Ignore

  /** A header is present when it is not null and not empty. */
  predicate Present(h: Option<string>)
  {
    h.Some? && h.value != ""
  }

  predicate HeadersPresent(h: SvixHeaders)
  {
    Present(h.id) && Present(h.timestamp) && Present(h.signature)
  }

  /** The record `createUser` receives: the clerk id, the first email address, and the profile fields. */
  function CreatedUser(d: UserData): (p: UserParams)
    requires |d.emailAddresses| > 0
    ensures p.clerkId == d.id && p.email == d.emailAddresses[0]
    ensures p.username == d.username && p.firstName == d.firstName && p.lastName == d.lastName
    ensures p.photo == d.imageUrl
  {
    UserParams(d.id, d.emailAddresses[0], d.username, d.firstName, d.lastName, d.imageUrl)
  }

  /** The patch `updateUser` receives: names, username and photo, never the email. */
  function UpdatedUser(d: UserData): (p: UserPatch)
    ensures p.firstName == d.firstName && p.lastName == d.lastName
    ensures p.username == d.username && p.photo == d.imageUrl
  {
    UserPatch(d.firstName, d.lastName, d.username, d.imageUrl)
  }

  /**
   * The gates in order (the secret before anything is read, then the headers,
   * then the signature), then the dispatch on the event type.
   */
  function Decide(secret: Option<string>, headers: SvixHeaders, verified: Option<ClerkEvent>): (s: Step)
    ensures !Present(secret) ==> s == Throw(PlainError(MissingSecret))
    ensures Present(secret) && !HeadersPresent(headers) ==> s == BadRequest(NoHeaders)
    ensures Present(secret) && HeadersPresent(headers) && verified.None? ==> s == BadRequest(VerifyFailed)
    ensures s.CallCreate? ==> verified.Some? && verified.value.eventType == UserCreated &&
                               |verified.value.data.emailAddresses| > 0 &&
                               s.user == CreatedUser(verified.value.data)
    ensures Present(secret) && HeadersPresent(headers) && verified.Some? &&
            verified.value.eventType == UserCreated && verified.value.data.emailAddresses == [] ==>
              s == Throw(PlainError(NoEmailTypeError))
    ensures s.CallUpdate? ==> verified.Some? && verified.value.eventType == UserUpdated &&
                               s == CallUpdate(verified.value.data.id, UpdatedUser(verified.value.data))
    ensures s.CallDelete? ==> verified.Some? && verified.value.eventType == UserDeleted &&
                               s.clerkId == verified.value.data.id
    ensures Present(secret) && HeadersPresent(headers) && verified.Some? &&
            verified.value.eventType == UserCreated && |verified.value.data.emailAddresses| > 0 ==>
              s == CallCreate(CreatedUser(verified.value.data))
    ensures Present(secret) && HeadersPresent(headers) && verified.Some? && verified.value.eventType == UserUpdated ==>
              s == CallUpdate(verified.value.data.id, UpdatedUser(verified.value.data))
    ensures Present(secret) && HeadersPresent(headers) && verified.Some? && verified.value.eventType == UserDeleted ==>
              s == CallDelete(verified.value.data.id)
    ensures s.Ignore? <==> Present(secret) && HeadersPresent(headers) && verified.Some? &&
                           verified.value.eventType !in {UserCreated, UserUpdated, UserDeleted}
  {
    if !Present(secret) then Throw(PlainError(MissingSecret))
    else if !HeadersPresent(headers) then BadRequest(NoHeaders)
    else match verified
      case None => BadRequest(VerifyFailed)
      case Some(e) =>
        if e.eventType == UserCreated then
          if |e.data.emailAddresses| == 0 then Throw(PlainError(NoEmailTypeError))
          else CallCreate(CreatedUser(e.data))
        else if e.eventType == UserUpdated then CallUpdate(e.data.id, UpdatedUser(e.data))
        else if e.eventType == UserDeleted then CallDelete(e.data.id)
        else Ignore
  }

  /** A missing secret throws whatever the headers and the body are. */
  lemma SecretCheckedFirst(secret: Option<string>, h1: SvixHeaders, h2: SvixHeaders, v1: Option<ClerkEvent>, v2: Option<ClerkEvent>)
    requires !Present(secret)
    ensures Decide(secret, h1, v1) == Decide(secret, h2, v2) == Throw(PlainError(MissingSecret))
  {
  }

  /** Missing headers refuse the request whatever the body is. */
  lemma HeadersCheckedBeforeBody(secret: Option<string>, h: SvixHeaders, v1: Option<ClerkEvent>, v2: Option<ClerkEvent>)
    requires Present(secret) && !HeadersPresent(h)
    ensures Decide(secret, h, v1) == Decide(secret, h, v2) == BadRequest(NoHeaders)
  {
  }

  datatype ClerkResponse =
    | Crashed(cause: Thrown)          // the handler rejects; for an action's failure `cause` is what the action threw, and the caller sees `HandleError(cause)`
    | Status400(text: string)
    | UserResult(user: User)          // `{message: 'OK', user}`
    | Empty                           // an empty 200

  /** Public metadata `{userId}` pushed to the provider for the user with `clerkId`. */
  datatype MetadataPush = MetadataPush(clerkId: string, userId: Id)

  datatype ClerkResult = ClerkResult(response: ClerkResponse, push: Option<MetadataPush>, db: Db.Db)

  /** `NextResponse.json({message: 'OK', user})` for a returned user; a rejected action rejects the handler. */
  function Respond(r: Outcome<User>): (resp: ClerkResponse)
    ensures r.Ok? <==> resp.UserResult?
    ensures r.Ok? ==> resp.user == r.value
    ensures r.Failed? ==> resp == Crashed(r.cause)
  {
    if r.Ok? then UserResult(r.value) else Crashed(r.cause)
  }

  /** The handler as a function of the store; `id` is the id a created user receives. */
  function HandleClerk(db: Db.Db, secret: Option<string>, headers: SvixHeaders, verified: Option<ClerkEvent>, id: Id)
    : (res: ClerkResult)
    ensures res.push.Some? <==> Decide(secret, headers, verified).CallCreate? &&
                                Db.CreateUser(db, Decide(secret, headers, verified).user, id).0.Ok?
    ensures res.push.Some? ==> res.push.value == MetadataPush(verified.value.data.id, id)
    ensures var s := Decide(secret, headers, verified);
      (s.Throw? || s.BadRequest? || s.Ignore?) ==> res.db == db && res.push.None?
    ensures var s := Decide(secret, headers, verified);
      s.Throw? ==> res.response == Crashed(s.t)
    ensures var s := Decide(secret, headers, verified);
      s.BadRequest? ==> res.response == Status400(s.text)
    ensures var s := Decide(secret, headers, verified);
      s.Ignore? ==> res.response == Empty
    ensures var s := Decide(secret, headers, verified);
      s.CallCreate? ==> (res.response == Respond(Db.CreateUser(db, s.user, id).0) &&
                         res.db == Db.CreateUser(db, s.user, id).1)
    ensures var s := Decide(secret, headers, verified);
      s.CallUpdate? ==> (res.response == Respond(Db.UpdateUser(db, s.clerkId, s.patch).0) &&
                         res.db == Db.UpdateUser(db, s.clerkId, s.patch).1)
    ensures var s := Decide(secret, headers, verified);
      s.CallDelete? ==> (res.response == Respond(Db.DeleteUser(db, s.clerkId).0) &&
                         res.db == Db.DeleteUser(db, s.clerkId).1)
  {
    match Decide(secret, headers, verified)
    case Throw(t) => ClerkResult(Crashed(t), None, db)
    case BadRequest(text) => ClerkResult(Status400(text), None, db)
    case Ignore => ClerkResult(Empty, None, db)
    case CallCreate(p) =>
      var (r, after) := Db.CreateUser(db, p, id);
      ClerkResult(Respond(r), if r.Ok? then Some(MetadataPush(p.clerkId, r.value.id)) else None, after)
    case CallUpdate(clerkId, patch) =>
      var (r, after) := Db.UpdateUser(db, clerkId, patch);
      ClerkResult(Respond(r), None, after)
    case CallDelete(clerkId) =>
      var (r, after) := Db.DeleteUser(db, clerkId);
      ClerkResult(Respond(r), None, after)
  }

  /** A created user is stored under the event's id with the first email address. */
  lemma CreatedUserMatchesEvent(db: Db.Db, secret: Option<string>, headers: SvixHeaders, e: ClerkEvent, id: Id)
    requires HandleClerk(db, secret, headers, Some(e), id).response.UserResult?
    requires e.eventType == UserCreated
    ensures var res := HandleClerk(db, secret, headers, Some(e), id);
      && res.db.users == db.users + [res.response.user]
      && res.response.user.clerkId == e.data.id
      && res.response.user.email == e.data.emailAddresses[0]
  {
  }

  /**
   * A `user.updated` event never changes a stored user's email: whatever the
   * gates decide, the user with that clerk id is still found and keeps it.
   */
  lemma EmailNeverUpdated(db: Db.Db, secret: Option<string>, headers: SvixHeaders, verified: Option<ClerkEvent>,
                          id: Id, clerkId: string)
    requires Db.UserByClerkId(db.users, clerkId).Some?
    requires verified.Some? && verified.value.eventType == UserUpdated
    ensures var after := HandleClerk(db, secret, headers, verified, id).db;
      var k := Db.UserByClerkId(db.users, clerkId).value;
      Db.UserByClerkId(after.users, clerkId).Some? &&
      after.users[Db.UserByClerkId(after.users, clerkId).value].email == db.users[k].email
  {
    var after := HandleClerk(db, secret, headers, verified, id).db;
    var k := Db.UserByClerkId(db.users, clerkId).value;
    var s := Decide(secret, headers, verified);
    if s.CallUpdate? {
      var (r, _) := Db.UpdateUser(db, s.clerkId, s.patch);
      if r.Ok? {
        var j := Db.UserByClerkId(db.users, s.clerkId).value;
        assert after.users == db.users[j := r.value];
        var k2 := Db.UserByClerkId(after.users, clerkId);
        assert after.users[k].clerkId == clerkId;
        assert k2.Some? && k2.value <= k;
        assert after.users[k2.value].clerkId == clerkId;
        assert db.users[k2.value].clerkId == clerkId;
      }
    }
  }

  /** The handler performed on the shared store; returns the response and the metadata to push. */
  method Handle(store: Actions.Store, secret: Option<string>, headers: SvixHeaders, verified: Option<ClerkEvent>, id: Id)
    returns (resp: ClerkResponse, push: Option<MetadataPush>)
    requires store.Valid() && Db.FreshUserId(store.State(), id)
    modifies store
    ensures store.Valid()
    ensures ClerkResult(resp, push, store.State()) == HandleClerk(old(store.State()), secret, headers, verified, id)
  {
    push := None;
    var step := Decide(secret, headers, verified);
    match step {
      case Throw(t) =>
        resp := Crashed(t);
      case BadRequest(text) =>
        resp := Status400(text);
      case Ignore =>
        resp := Empty;
      case CallCreate(p) =>
        var r := store.CreateUser(p, id);
        resp := Respond(r);
        if r.Ok? {
          push := Some(MetadataPush(p.clerkId, r.value.id));
        }
      case CallUpdate(clerkId, patch) =>
        var r := store.UpdateUser(clerkId, patch);
        resp := Respond(r);
      case CallDelete(clerkId) =>
        var r := store.DeleteUser(clerkId);
        resp := Respond(r);
    }
  }
}
