/**
 * The mutating actions as functions from the store's state before to the
 * action's outcome and the state after. The `Store` class (module Store)
 * performs them in place and is proved to agree with these functions; the
 * lemmas here state what the actions promise.
 */
module Db {
  import opened Common
  import opened Models
  import opened Errors
  import opened Listings

  /** The four collections, each in natural (insertion) order. */
  datatype Db = Db(users: seq<User>, categories: seq<Category>, events: seq<Event>, orders: seq<Order>)

  /** The unique indexes the schemas declare, and unique document ids. */
  ghost predicate Valid(db: Db)
  {
    UsersWellFormed(db.users) && CategoriesWellFormed(db.categories) &&
    EventsWellFormed(db.events) && OrdersWellFormed(db.orders)
  }

  const OrganizerNotFound := "Organizer not found"
  const UnauthorizedOrNotFound := "Unauthorized or event not found"
  /** What the runtime throws when `updateEvent` reads the organizer of an event that has none. */
  const NoOrganizerTypeError := "Cannot read properties of undefined (reading 'toHexString')"
  const UserUpdateFailed := "User update failed"
  const UserNotFound := "User not found"

  // ---------------------------------------------------------------------------
  // Events
  // ---------------------------------------------------------------------------

  /**
   * `createEvent({userId, event, path})`: refuses an unknown organizer and a
   * form without title or image; otherwise stores the new event with
   * `organizer := userId` and `category := event.categoryId`.
   */
  function CreateEvent(db: Db, userId: Id, p: EventParams, id: Id, now: Time): (res: (Outcome<Event>, Db))
    ensures res.0.Failed? ==> res.1 == db
    ensures UserById(db.users, userId).None? <==> res.0 == Failed(PlainError(OrganizerNotFound))
    ensures UserById(db.users, userId).Some? && !EventRequiredPresent(p) ==>
              res.0 == Failed(StoreError(ValidationFailed))
    ensures res.0.Ok? <==> UserById(db.users, userId).Some? && EventRequiredPresent(p)
    ensures res.0.Ok? ==>
              && res.0.value.id == id
              && res.0.value.organizer == Some(userId)
              && res.0.value.category == Some(p.categoryId)
              && res.0.value == NewEvent(id, p, userId, now)
              && res.1 == db.(events := db.events + [res.0.value])
  {
    if UserById(db.users, userId).None? then (Failed(PlainError(OrganizerNotFound)), db)
    else if !EventRequiredPresent(p) then (Failed(StoreError(ValidationFailed)), db)
    else
      var e := NewEvent(id, p, userId, now);
      (Ok(e), db.(events := db.events + [e]))
  }

  /** The event collection with the document whose id is `e.id` replaced by `e`. */
  function ReplaceEvent(events: seq<Event>, e: Event): (r: seq<Event>)
    ensures |r| == |events|
    ensures forall i :: 0 <= i < |r| ==> r[i] == (if events[i].id == e.id then e else events[i])
  {
    seq(|events|, i requires 0 <= i < |events| => if events[i].id == e.id then e else events[i])
  }

  /** Why `updateEvent` refuses, or `None` when `userId` owns the event. */
  function UpdateEventRefusal(events: seq<Event>, userId: Id, eventId: Id): (r: Option<Thrown>)
    ensures r.None? <==> EventById(events, eventId).Some? && EventById(events, eventId).value.organizer == Some(userId)
    ensures EventById(events, eventId).None? ==> r == Some(PlainError(UnauthorizedOrNotFound))
    ensures EventById(events, eventId).Some? && EventById(events, eventId).value.organizer.None? ==>
              r == Some(PlainError(NoOrganizerTypeError))
    ensures EventById(events, eventId).Some? && EventById(events, eventId).value.organizer.Some? &&
            EventById(events, eventId).value.organizer.value != userId ==>
              r == Some(PlainError(UnauthorizedOrNotFound))
  {
    match EventById(events, eventId)
    case None => Some(PlainError(UnauthorizedOrNotFound))
    case Some(e) =>
      if e.organizer.None? then Some(PlainError(NoOrganizerTypeError))
      else if e.organizer.value != userId then Some(PlainError(UnauthorizedOrNotFound))
      else None
  }

  /**
   * `updateEvent({userId, event, path})`: only the organizer may update; the
   * patch is applied with `category := categoryId` and the updated document is
   * returned.
   */
  function UpdateEvent(db: Db, userId: Id, patch: EventPatch): (res: (Outcome<Event>, Db))
    ensures res.0.Failed? ==> res.1 == db
    ensures res.0.Ok? <==> UpdateEventRefusal(db.events, userId, patch.id).None?
    ensures res.0.Failed? ==> res.0 == Failed(UpdateEventRefusal(db.events, userId, patch.id).value)
    ensures res.0.Ok? ==>
              var before := EventById(db.events, patch.id).value;
              && res.0.value == PatchedEvent(before, patch)
              && res.1 == db.(events := ReplaceEvent(db.events, res.0.value))
  {
    match UpdateEventRefusal(db.events, userId, patch.id)
    case Some(t) => (Failed(t), db)
    case None =>
      var updated := PatchedEvent(EventById(db.events, patch.id).value, patch);
      (Ok(updated), db.(events := ReplaceEvent(db.events, updated)))
  }

  /** `deleteEvent({eventId, path})`: removes the event if present; reports whether it was. */
  function DeleteEvent(db: Db, eventId: Id): (res: (bool, Db))
    ensures res.0 <==> EventById(db.events, eventId).Some?
    ensures res.1 == db.(events := res.1.events)
    ensures forall i :: 0 <= i < |res.1.events| ==> res.1.events[i].id != eventId
    ensures forall i :: 0 <= i < |res.1.events| ==> res.1.events[i] in db.events
    ensures forall i :: 0 <= i < |db.events| && db.events[i].id != eventId ==> db.events[i] in res.1.events
  {
    (EventById(db.events, eventId).Some?, db.(events := Filter(db.events, (e: Event) => e.id != eventId)))
  }

  // ---------------------------------------------------------------------------
  // Orders
  // ---------------------------------------------------------------------------

  predicate StripeIdTaken(orders: seq<Order>, stripeId: string)
  {
    exists i :: 0 <= i < |orders| && orders[i].stripeId == stripeId
  }

  /**
   * `createOrder(order)`: a missing session id or one already stored is
   * refused; otherwise the order is stored with `event := eventId` and
   * `buyer := buyerId`.
   */
  function CreateOrder(db: Db, p: OrderParams, id: Id, now: Time): (res: (Outcome<Order>, Db))
    ensures res.0.Failed? ==> res.1 == db
    ensures p.stripeId == "" ==> res.0 == Failed(StoreError(ValidationFailed))
    ensures p.stripeId != "" && StripeIdTaken(db.orders, p.stripeId) ==> res.0 == Failed(StoreError(DuplicateKey))
    ensures res.0.Ok? <==> p.stripeId != "" && !StripeIdTaken(db.orders, p.stripeId)
    ensures res.0.Ok? ==>
              && res.0.value == NewOrder(id, p, now)
              && res.1 == db.(orders := db.orders + [res.0.value])
  {
    if p.stripeId == "" then (Failed(StoreError(ValidationFailed)), db)
    else if StripeIdTaken(db.orders, p.stripeId) then (Failed(StoreError(DuplicateKey)), db)
    else
      var o := NewOrder(id, p, now);
      (Ok(o), db.(orders := db.orders + [o]))
  }

  // ---------------------------------------------------------------------------
  // Users
  // ---------------------------------------------------------------------------

  /** Some stored user already holds the clerk id, the email or the username. */
  predicate UserKeyTaken(users: seq<User>, p: UserParams)
  {
    exists i :: 0 <= i < |users| &&
      (users[i].clerkId == p.clerkId || users[i].email == p.email || users[i].username == p.username)
  }

  /** `createUser(user)`: stores the record as given, refusing missing fields and taken unique keys. */
  function CreateUser(db: Db, p: UserParams, id: Id): (res: (Outcome<User>, Db))
    ensures res.0.Failed? ==> res.1 == db
    ensures !UserRequiredPresent(p) ==> res.0 == Failed(StoreError(ValidationFailed))
    ensures UserRequiredPresent(p) && UserKeyTaken(db.users, p) ==> res.0 == Failed(StoreError(DuplicateKey))
    ensures res.0.Ok? <==> UserRequiredPresent(p) && !UserKeyTaken(db.users, p)
    ensures res.0.Ok? ==>
              && res.0.value == NewUser(id, p)
              && res.1 == db.(users := db.users + [res.0.value])
  {
    if !UserRequiredPresent(p) then (Failed(StoreError(ValidationFailed)), db)
    else if UserKeyTaken(db.users, p) then (Failed(StoreError(DuplicateKey)), db)
    else
      var u := NewUser(id, p);
      (Ok(u), db.(users := db.users + [u]))
  }

  function UserByClerkId(users: seq<User>, clerkId: string): (r: Option<nat>)
    ensures r.Some? ==> r.value < |users| && users[r.value].clerkId == clerkId
    ensures r.None? <==> forall i :: 0 <= i < |users| ==> users[i].clerkId != clerkId
    ensures r.Some? ==> forall j :: 0 <= j < r.value ==> users[j].clerkId != clerkId
  {
    Find(users, (u: User) => u.clerkId == clerkId)
  }

  /** Another user than the one at index `k` already has `username`. */
  predicate UsernameTakenByOther(users: seq<User>, k: nat, username: string)
  {
    exists i :: 0 <= i < |users| && i != k && users[i].username == username
  }

  /**
   * `updateUser(clerkId, user)`: finds the user by clerk id (not by `_id`),
   * applies the patch and returns the updated record; "User update failed" when
   * no user has that clerk id. The update runs no required-field validation,
   * but the unique index on username still applies.
   */
  function UpdateUser(db: Db, clerkId: string, patch: UserPatch): (res: (Outcome<User>, Db))
    ensures res.0.Failed? ==> res.1 == db
    ensures UserByClerkId(db.users, clerkId).None? <==> res.0 == Failed(PlainError(UserUpdateFailed))
    ensures res.0.Ok? <==> UserByClerkId(db.users, clerkId).Some? &&
                           !UsernameTakenByOther(db.users, UserByClerkId(db.users, clerkId).value, patch.username)
    ensures UserByClerkId(db.users, clerkId).Some? &&
            UsernameTakenByOther(db.users, UserByClerkId(db.users, clerkId).value, patch.username) ==>
              res.0 == Failed(StoreError(DuplicateKey))
    ensures res.0.Ok? ==>
              var k := UserByClerkId(db.users, clerkId).value;
              && res.0.value == PatchedUser(db.users[k], patch)
              && res.1 == db.(users := db.users[k := res.0.value])
  {
    match UserByClerkId(db.users, clerkId)
    case None => (Failed(PlainError(UserUpdateFailed)), db)
    case Some(k) =>
      if UsernameTakenByOther(db.users, k, patch.username) then (Failed(StoreError(DuplicateKey)), db)
      else
        var u := PatchedUser(db.users[k], patch);
        (Ok(u), db.(users := db.users[k := u]))
  }

  /**
   * The event collection after the delete action's first update: on the events
   * listed, an organizer equal to `userId` is removed.
   */
  function DetachOrganizer(events: seq<Event>, listed: seq<Id>, userId: Id): (r: seq<Event>)
    ensures |r| == |events|
    ensures forall i :: 0 <= i < |r| ==>
              r[i] == if events[i].id in listed && events[i].organizer == Some(userId)
                      then events[i].(organizer := None) else events[i]
  {
    seq(|events|, i requires 0 <= i < |events| =>
          if events[i].id in listed && events[i].organizer == Some(userId)
          then events[i].(organizer := None) else events[i])
  }

  /** The order collection after the delete action's second update: the buyer is unset on the orders listed. */
  function UnsetBuyer(orders: seq<Order>, listed: seq<Id>): (r: seq<Order>)
    ensures |r| == |orders|
    ensures forall i :: 0 <= i < |r| ==>
              r[i] == if orders[i].id in listed then orders[i].(buyer := None) else orders[i]
  {
    seq(|orders|, i requires 0 <= i < |orders| =>
          if orders[i].id in listed then orders[i].(buyer := None) else orders[i])
  }

  /**
   * `deleteUser(clerkId)`: "User not found" when no user has that clerk id;
   * otherwise detaches the user from the events and orders listed on its own
   * record, removes it, and returns the removed record.
   */
  function DeleteUser(db: Db, clerkId: string): (res: (Outcome<User>, Db))
    ensures res.0.Failed? ==> res.1 == db
    ensures UserByClerkId(db.users, clerkId).None? <==> res.0 == Failed(PlainError(UserNotFound))
    ensures res.0.Ok? ==>
              var u := db.users[UserByClerkId(db.users, clerkId).value];
              && res.0.value == u
              && res.1.categories == db.categories
              && res.1.events == DetachOrganizer(db.events, u.events, u.id)
              && res.1.orders == UnsetBuyer(db.orders, u.orders)
              && (forall i :: 0 <= i < |res.1.users| ==> res.1.users[i].id != u.id && res.1.users[i] in db.users)
              && (forall i :: 0 <= i < |db.users| && db.users[i].id != u.id ==> db.users[i] in res.1.users)
  {
    match UserByClerkId(db.users, clerkId)
    case None => (Failed(PlainError(UserNotFound)), db)
    case Some(k) =>
      var u := db.users[k];
      (Ok(u), Db(Filter(db.users, (x: User) => x.id != u.id), db.categories,
                 DetachOrganizer(db.events, u.events, u.id), UnsetBuyer(db.orders, u.orders)))
  }

  // ---------------------------------------------------------------------------
  // Categories
  // ---------------------------------------------------------------------------

  predicate CategoryNameTaken(categories: seq<Category>, name: string)
  {
    exists i :: 0 <= i < |categories| && categories[i].name == name
  }

  /** `createCategory({categoryName})`: stores `{name: categoryName}` unless the name is empty or taken. */
  function CreateCategory(db: Db, name: string, id: Id): (res: (Outcome<Category>, Db))
    ensures res.0.Failed? ==> res.1 == db
    ensures name == "" ==> res.0 == Failed(StoreError(ValidationFailed))
    ensures name != "" && CategoryNameTaken(db.categories, name) ==> res.0 == Failed(StoreError(DuplicateKey))
    ensures res.0.Ok? <==> name != "" && !CategoryNameTaken(db.categories, name)
    ensures res.0.Ok? ==>
              && res.0.value == Category(id, name)
              && res.1 == db.(categories := db.categories + [res.0.value])
  {
    if name == "" then (Failed(StoreError(ValidationFailed)), db)
    else if CategoryNameTaken(db.categories, name) then (Failed(StoreError(DuplicateKey)), db)
    else (Ok(Category(id, name)), db.(categories := db.categories + [Category(id, name)]))
  }

  // ---------------------------------------------------------------------------
  // What the actions promise
  // ---------------------------------------------------------------------------

  /** No event uses `id` yet (a fresh ObjectId). */
  predicate FreshEventId(db: Db, id: Id)
  {
    forall i :: 0 <= i < |db.events| ==> db.events[i].id != id
  }

  predicate FreshOrderId(db: Db, id: Id)
  {
    forall i :: 0 <= i < |db.orders| ==> db.orders[i].id != id
  }

  predicate FreshUserId(db: Db, id: Id)
  {
    forall i :: 0 <= i < |db.users| ==> db.users[i].id != id
  }

  predicate FreshCategoryId(db: Db, id: Id)
  {
    forall i :: 0 <= i < |db.categories| ==> db.categories[i].id != id
  }

  lemma CreateEventKeepsValid(db: Db, userId: Id, p: EventParams, id: Id, now: Time)
    requires Valid(db) && FreshEventId(db, id)
    ensures Valid(CreateEvent(db, userId, p, id, now).1)
  {
    var res := CreateEvent(db, userId, p, id, now);
    if res.0.Ok? {
      UniqueByAppend(db.events, res.0.value, (e: Event) => e.id);
    }
  }

  /** A created event is what `getEventById` then returns, populated. */
  lemma CreatedEventIsFound(db: Db, userId: Id, p: EventParams, id: Id, now: Time)
    requires FreshEventId(db, id)
    requires CreateEvent(db, userId, p, id, now).0.Ok?
    ensures var (r, after) := CreateEvent(db, userId, p, id, now);
      GetEventById(after.events, after.users, after.categories, id) == Ok(PopulateEvent(r.value, db.users, db.categories))
  {
    var (r, after) := CreateEvent(db, userId, p, id, now);
    assert after.events[|db.events|] == r.value;
    var k := Find(after.events, (e: Event) => e.id == id);
    assert k.Some?;
    assert k.value == |db.events|;
  }

  lemma UpdateEventKeepsValid(db: Db, userId: Id, patch: EventPatch)
    requires Valid(db)
    ensures Valid(UpdateEvent(db, userId, patch).1)
  {
    var (r, after) := UpdateEvent(db, userId, patch);
    if r.Ok? {
      forall i, j | 0 <= i < j < |after.events| ensures after.events[i].id != after.events[j].id {
        assert after.events[i].id == db.events[i].id && after.events[j].id == db.events[j].id;
      }
    }
  }

  /** After a successful update, looking the event up gives the updated document. */
  lemma UpdatedEventIsFound(db: Db, userId: Id, patch: EventPatch)
    requires UpdateEvent(db, userId, patch).0.Ok?
    ensures var (r, after) := UpdateEvent(db, userId, patch);
      EventById(after.events, patch.id) == Some(r.value)
  {
    var (r, after) := UpdateEvent(db, userId, patch);
    var k := Find(db.events, (e: Event) => e.id == patch.id);
    assert k.Some?;
    var k2 := Find(after.events, (e: Event) => e.id == patch.id);
    assert after.events[k.value] == r.value;
    assert k2.Some? && k2.value <= k.value;
  }

  /** Only the organizer may update: anyone else leaves the collections as they were. */
  lemma OnlyOrganizerUpdates(db: Db, userId: Id, patch: EventPatch, e: Event)
    requires EventById(db.events, patch.id) == Some(e)
    requires e.organizer != Some(userId)
    ensures UpdateEvent(db, userId, patch).0.Failed?
    ensures UpdateEvent(db, userId, patch).1 == db
  {
  }

  lemma DeleteEventKeepsValid(db: Db, eventId: Id)
    requires Valid(db)
    ensures Valid(DeleteEvent(db, eventId).1)
  {
    UniqueByFilter(db.events, (e: Event) => e.id != eventId, (e: Event) => e.id);
  }

  /** A deleted event is no longer found, and every other event is kept. */
  lemma DeletedEventIsGone(db: Db, eventId: Id)
    ensures var after := DeleteEvent(db, eventId).1;
      && GetEventById(after.events, after.users, after.categories, eventId) == Failed(PlainError("Event not found"))
      && forall e :: e in db.events && e.id != eventId ==> e in after.events
  {
    var after := DeleteEvent(db, eventId).1;
    forall e | e in db.events && e.id != eventId ensures e in after.events {
      var i :| 0 <= i < |db.events| && db.events[i] == e;
    }
  }

  /** Deleting an id that is not stored changes nothing. */
  lemma DeleteAbsentEventIsNoOp(db: Db, eventId: Id)
    requires EventById(db.events, eventId).None?
    ensures DeleteEvent(db, eventId) == (false, db)
  {
    FilterKeepsAll(db.events, (e: Event) => e.id != eventId);
  }

  lemma CreateOrderKeepsValid(db: Db, p: OrderParams, id: Id, now: Time)
    requires Valid(db) && FreshOrderId(db, id)
    ensures Valid(CreateOrder(db, p, id, now).1)
  {
    var res := CreateOrder(db, p, id, now);
    if res.0.Ok? {
      UniqueByAppend(db.orders, res.0.value, (o: Order) => o.id);
      UniqueByAppend(db.orders, res.0.value, (o: Order) => o.stripeId);
    }
  }

  /**
   * A checkout session is recorded at most once: a second order with the same
   * session id is refused and the order count stays where the first left it.
   */
  lemma SecondOrderForSessionFails(db: Db, p: OrderParams, id1: Id, id2: Id, now1: Time, now2: Time)
    requires CreateOrder(db, p, id1, now1).0.Ok?
    ensures var after := CreateOrder(db, p, id1, now1).1;
      && CreateOrder(after, p, id2, now2) == (Failed(StoreError(DuplicateKey)), after)
      && |after.orders| == |db.orders| + 1
  {
    var after := CreateOrder(db, p, id1, now1).1;
    assert after.orders[|db.orders|].stripeId == p.stripeId;
  }

  lemma CreateUserKeepsValid(db: Db, p: UserParams, id: Id)
    requires Valid(db) && FreshUserId(db, id)
    ensures Valid(CreateUser(db, p, id).1)
  {
    var res := CreateUser(db, p, id);
    if res.0.Ok? {
      var u := res.0.value;
      UniqueByAppend(db.users, u, (x: User) => x.id);
      UniqueByAppend(db.users, u, (x: User) => x.clerkId);
      UniqueByAppend(db.users, u, (x: User) => x.email);
      UniqueByAppend(db.users, u, (x: User) => x.username);
    }
  }

  lemma UpdateUserKeepsValid(db: Db, clerkId: string, patch: UserPatch)
    requires Valid(db)
    ensures Valid(UpdateUser(db, clerkId, patch).1)
  {
    var (r, after) := UpdateUser(db, clerkId, patch);
    if r.Ok? {
      var k := UserByClerkId(db.users, clerkId).value;
      var us := after.users;
      forall i, j | 0 <= i < j < |us|
        ensures us[i].id != us[j].id && us[i].clerkId != us[j].clerkId
        ensures us[i].email != us[j].email && us[i].username != us[j].username
      {
        if i != k && j != k {
          assert us[i] == db.users[i] && us[j] == db.users[j];
        }
      }
    }
  }

  /** After a successful update the user found by clerk id carries the new profile fields and the old email. */
  lemma UpdatedUserIsFound(db: Db, clerkId: string, patch: UserPatch)
    requires UpdateUser(db, clerkId, patch).0.Ok?
    ensures var (r, after) := UpdateUser(db, clerkId, patch);
      && UserByClerkId(after.users, clerkId).Some?
      && after.users[UserByClerkId(after.users, clerkId).value] == r.value
      && r.value.email == db.users[UserByClerkId(db.users, clerkId).value].email
  {
    var (r, after) := UpdateUser(db, clerkId, patch);
    var k := UserByClerkId(db.users, clerkId).value;
    var k2 := UserByClerkId(after.users, clerkId);
    assert after.users[k].clerkId == clerkId;
    assert k2.Some? && k2.value <= k;
  }

  lemma DeleteUserKeepsValid(db: Db, clerkId: string)
    requires Valid(db)
    ensures Valid(DeleteUser(db, clerkId).1)
  {
    var (r, after) := DeleteUser(db, clerkId);
    if r.Ok? {
      var u := r.value;
      var keep := (x: User) => x.id != u.id;
      UniqueByFilter(db.users, keep, (x: User) => x.id);
      UniqueByFilter(db.users, keep, (x: User) => x.clerkId);
      UniqueByFilter(db.users, keep, (x: User) => x.email);
      UniqueByFilter(db.users, keep, (x: User) => x.username);
      forall i, j | 0 <= i < j < |after.events| ensures after.events[i].id != after.events[j].id {
        assert after.events[i].id == db.events[i].id && after.events[j].id == db.events[j].id;
      }
      forall i, j | 0 <= i < j < |after.orders|
        ensures after.orders[i].id != after.orders[j].id
        ensures after.orders[i].stripeId != after.orders[j].stripeId
      {
        assert after.orders[i].id == db.orders[i].id && after.orders[j].id == db.orders[j].id;
        assert after.orders[i].stripeId == db.orders[i].stripeId;
        assert after.orders[j].stripeId == db.orders[j].stripeId;
      }
    }
  }

  /** After a delete, no user has that clerk id any more. */
  lemma DeletedUserIsGone(db: Db, clerkId: string)
    requires Valid(db)
    requires DeleteUser(db, clerkId).0.Ok?
    ensures UserByClerkId(DeleteUser(db, clerkId).1.users, clerkId).None?
  {
    var (r, after) := DeleteUser(db, clerkId);
    var k := UserByClerkId(db.users, clerkId).value;
    forall i | 0 <= i < |after.users| ensures after.users[i].clerkId != clerkId {
      var x := after.users[i];
      assert x in db.users && x.id != db.users[k].id;
      var j :| 0 <= j < |db.users| && db.users[j] == x;
      assert j != k;
      assert UniqueBy(db.users, (y: User) => y.clerkId);
      if j < k {
        assert db.users[j].clerkId != db.users[k].clerkId;
      } else {
        assert db.users[k].clerkId != db.users[j].clerkId;
      }
    }
  }

  /**
   * A user created through the schema has no event or order lists, so
   * deleting it leaves every event and order as it was: its events keep it as
   * organizer and its orders keep it as buyer.
   */
  lemma DeletingCreatedUserKeepsReferences(db: Db, p: UserParams, id: Id)
    requires CreateUser(db, p, id).0.Ok?
    requires UserByClerkId(db.users, p.clerkId).None?
    ensures var after := DeleteUser(CreateUser(db, p, id).1, p.clerkId);
      && after.0 == Ok(NewUser(id, p))
      && after.1.events == db.events
      && after.1.orders == db.orders
  {
    var created := CreateUser(db, p, id).1;
    var u := NewUser(id, p);
    var k := UserByClerkId(created.users, p.clerkId);
    assert created.users[|db.users|] == u;
    assert k.Some? && k.value == |db.users|;
    var after := DeleteUser(created, p.clerkId).1;
    assert after.events == db.events;
    assert after.orders == db.orders;
  }

  lemma CreateCategoryKeepsValid(db: Db, name: string, id: Id)
    requires Valid(db) && FreshCategoryId(db, id)
    ensures Valid(CreateCategory(db, name, id).1)
  {
    var res := CreateCategory(db, name, id);
    if res.0.Ok? {
      UniqueByAppend(db.categories, res.0.value, (c: Category) => c.id);
      UniqueByAppend(db.categories, res.0.value, (c: Category) => c.name);
    }
  }

  /** A created category is listed by `getAllCategories`, and creating the same name again fails. */
  lemma CreatedCategoryIsListed(db: Db, name: string, id1: Id, id2: Id)
    requires CreateCategory(db, name, id1).0.Ok?
    ensures var after := CreateCategory(db, name, id1).1;
      && Category(id1, name) in GetAllCategories(after.categories).value
      && CreateCategory(after, name, id2) == (Failed(StoreError(DuplicateKey)), after)
  {
    var after := CreateCategory(db, name, id1).1;
    assert after.categories[|db.categories|] == Category(id1, name);
  }
}
