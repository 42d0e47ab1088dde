/**
 * The database the server actions share, as an object whose collections the
 * actions update in place. Each method performs one action and is proved to
 * agree with the corresponding function of module Db, so every lemma proved
 * there holds of the method; each method also keeps the unique indexes.
 * Document ids and the current time are parameters: the driver generates the
 * ids and the clock is outside the model.
 */
module Actions {
  import opened Common
  import opened Models
  import opened Errors
  import Db

  class Store {
    var users: seq<User>
    var categories: seq<Category>
    var events: seq<Event>
    var orders: seq<Order>

    /** The collections as one value. */
    function State(): Db.Db
      reads this
    {
      Db.Db(users, categories, events, orders)
    }

    ghost predicate Valid()
      reads this
    {
      Db.Valid(State())
    }

    /** An empty database. */
    constructor ()
      ensures Valid()
      ensures State() == Db.Db([], [], [], [])
    {
      users, categories, events, orders := [], [], [], [];
    }

    method CreateEvent(userId: Id, p: EventParams, id: Id, now: Time) returns (r: Outcome<Event>)
      requires Valid() && Db.FreshEventId(State(), id)
      modifies this
      ensures Valid()
      ensures (r, State()) == Db.CreateEvent(old(State()), userId, p, id, now)
    {
      Db.CreateEventKeepsValid(State(), userId, p, id, now);
      if UserById(users, userId).None? {
        return Failed(PlainError(Db.OrganizerNotFound));
      }
      if !EventRequiredPresent(p) {
        return Failed(StoreError(ValidationFailed));
      }
      var e := NewEvent(id, p, userId, now);
      events := events + [e];
      r := Ok(e);
    }

    method UpdateEvent(userId: Id, patch: EventPatch) returns (r: Outcome<Event>)
      requires Valid()
      modifies this
      ensures Valid()
      ensures (r, State()) == Db.UpdateEvent(old(State()), userId, patch)
    {
      Db.UpdateEventKeepsValid(State(), userId, patch);
      var refusal := Db.UpdateEventRefusal(events, userId, patch.id);
      if refusal.Some? {
        return Failed(refusal.value);
      }
      var updated := PatchedEvent(EventById(events, patch.id).value, patch);
      events := Db.ReplaceEvent(events, updated);
      r := Ok(updated);
    }

    method DeleteEvent(eventId: Id) returns (deleted: bool)
      requires Valid()
      modifies this
      ensures Valid()
      ensures (deleted, State()) == Db.DeleteEvent(old(State()), eventId)
    {
      Db.DeleteEventKeepsValid(State(), eventId);
      deleted := EventById(events, eventId).Some?;
      events := Filter(events, (e: Event) => e.id != eventId);
    }

    method CreateOrder(p: OrderParams, id: Id, now: Time) returns (r: Outcome<Order>)
      requires Valid() && Db.FreshOrderId(State(), id)
      modifies this
      ensures Valid()
      ensures (r, State()) == Db.CreateOrder(old(State()), p, id, now)
    {
      Db.CreateOrderKeepsValid(State(), p, id, now);
      if p.stripeId == "" {
        return Failed(StoreError(ValidationFailed));
      }
      if Db.StripeIdTaken(orders, p.stripeId) {
        return Failed(StoreError(DuplicateKey));
      }
      var o := NewOrder(id, p, now);
      orders := orders + [o];
      r := Ok(o);
    }

    method CreateUser(p: UserParams, id: Id) returns (r: Outcome<User>)
      requires Valid() && Db.FreshUserId(State(), id)
      modifies this
      ensures Valid()
      ensures (r, State()) == Db.CreateUser(old(State()), p, id)
    {
      Db.CreateUserKeepsValid(State(), p, id);
      if !UserRequiredPresent(p) {
        return Failed(StoreError(ValidationFailed));
      }
      if Db.UserKeyTaken(users, p) {
        return Failed(StoreError(DuplicateKey));
      }
      var u := NewUser(id, p);
      users := users + [u];
      r := Ok(u);
    }

    method UpdateUser(clerkId: string, patch: UserPatch) returns (r: Outcome<User>)
      requires Valid()
      modifies this
      ensures Valid()
      ensures (r, State()) == Db.UpdateUser(old(State()), clerkId, patch)
    {
      Db.UpdateUserKeepsValid(State(), clerkId, patch);
      var k := Db.UserByClerkId(users, clerkId);
      if k.None? {
        return Failed(PlainError(Db.UserUpdateFailed));
      }
      if Db.UsernameTakenByOther(users, k.value, patch.username) {
        return Failed(StoreError(DuplicateKey));
      }
      var u := PatchedUser(users[k.value], patch);
      users := users[k.value := u];
      r := Ok(u);
    }

    /**
     * Detaches the user from the events it lists, then unsets the buyer on the
     * orders it lists, then removes the user; the three updates run in this
     * order.
     */
    method DeleteUser(clerkId: string) returns (r: Outcome<User>)
      requires Valid()
      modifies this
      ensures Valid()
      ensures (r, State()) == Db.DeleteUser(old(State()), clerkId)
    {
      Db.DeleteUserKeepsValid(State(), clerkId);
      var k := Db.UserByClerkId(users, clerkId);
      if k.None? {
        return Failed(PlainError(Db.UserNotFound));
      }
      var u := users[k.value];
      events := Db.DetachOrganizer(events, u.events, u.id);
      orders := Db.UnsetBuyer(orders, u.orders);
      users := Filter(users, (x: User) => x.id != u.id);
      r := Ok(u);
    }

    method CreateCategory(name: string, id: Id) returns (r: Outcome<Category>)
      requires Valid() && Db.FreshCategoryId(State(), id)
      modifies this
      ensures Valid()
      ensures (r, State()) == Db.CreateCategory(old(State()), name, id)
    {
      Db.CreateCategoryKeepsValid(State(), name, id);
      if name == "" {
        return Failed(StoreError(ValidationFailed));
      }
      if Db.CategoryNameTaken(categories, name) {
        return Failed(StoreError(DuplicateKey));
      }
      var c := Category(id, name);
      categories := categories + [c];
      r := Ok(c);
    }
  }
}
