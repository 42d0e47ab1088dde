/**
 * The four document schemas (User, Category, Event, Order), the parameter
 * records the actions receive, the defaults the schemas apply when a document
 * is created, and the required/unique constraints they declare.
 *
 * References between documents are ids (`Option<Id>` where the schema does not
 * require them), never embedded records.
 */
module Models {
  import opened Common

  /** Document ids and other opaque keys (an ObjectId's hex text, a Clerk id). */
  type Id = string
  /** Instants as milliseconds since the epoch (`Date.now()`). */
  type Time = int

  /**
   * A user document. `events` and `orders` stand for the two lists that the
   * delete action reads from the document; the schema declares neither, so a
   * user created through the schema always has both empty.
   */
  datatype User = User(
    id: Id,
    clerkId: string,
    email: string,
    username: string,
    firstName: string,
    lastName: string,
    photo: string,
    events: seq<Id>,
    orders: seq<Id>)

  /** A category document holds only its id and its name. */
  datatype Category = Category(id: Id, name: string)

  /** An event document; `price` is text, `category` and `organizer` are id references. */
  datatype Event = Event(
    id: Id,
    title: string,
    description: Option<string>,
    location: Option<string>,
    createdAt: Time,
    imageUrl: string,
    startDateTime: Time,
    endDateTime: Time,
    price: Option<string>,
    isFree: bool,
    url: Option<string>,
    category: Option<Id>,
    organizer: Option<Id>)

  /** An order document; `event` and `buyer` are optional id references. */
  datatype Order = Order(
    id: Id,
    createdAt: Time,
    stripeId: string,
    totalAmount: Option<string>,
    event: Option<Id>,
    buyer: Option<Id>)

  /** One row of the orders-by-event listing (the `IOrderItem` shape): a flat record, `buyer` a name. */
  datatype OrderItem = OrderItem(
    id: Id,
    totalAmount: Option<string>,
    createdAt: Time,
    eventTitle: string,
    eventId: Id,
    buyer: string)

  // ---------------------------------------------------------------------------
  // What the actions receive
  // ---------------------------------------------------------------------------

  /** The event form's fields; absent optional fields take the schema defaults. */
  datatype EventParams = EventParams(
    title: string,
    description: Option<string>,
    location: Option<string>,
    imageUrl: string,
    startDateTime: Option<Time>,
    endDateTime: Option<Time>,
    categoryId: Id,
    price: Option<string>,
    isFree: Option<bool>,
    url: Option<string>)

  /** The update form: the event's id and every editable field. */
  datatype EventPatch = EventPatch(
    id: Id,
    title: string,
    description: Option<string>,
    location: Option<string>,
    imageUrl: string,
    startDateTime: Time,
    endDateTime: Time,
    categoryId: Id,
    price: Option<string>,
    isFree: bool,
    url: Option<string>)

  datatype OrderParams = OrderParams(
    stripeId: string,
    eventId: Id,
    buyerId: Id,
    totalAmount: string,
    createdAt: Option<Time>)

  datatype UserParams = UserParams(
    clerkId: string,
    email: string,
    username: string,
    firstName: string,
    lastName: string,
    photo: string)

  /** What a profile update may change; the email is not among them. */
  datatype UserPatch = UserPatch(firstName: string, lastName: string, username: string, photo: string)

  // ---------------------------------------------------------------------------
  // Required fields (a `required` string rejects both a missing and an empty value)
  // ---------------------------------------------------------------------------

  predicate EventRequiredPresent(p: EventParams)
  {
    p.title != "" && p.imageUrl != ""
  }

  predicate UserRequiredPresent(p: UserParams)
  {
    p.clerkId != "" && p.email != "" && p.username != "" &&
    p.firstName != "" && p.lastName != "" && p.photo != ""
  }

  // ---------------------------------------------------------------------------
  // Documents as the schemas create them
  // ---------------------------------------------------------------------------

  /** The event `createEvent` stores: the form's fields, the references and the schema defaults. */
  function NewEvent(id: Id, p: EventParams, organizer: Id, now: Time): (e: Event)
    ensures e.id == id && e.organizer == Some(organizer) && e.category == Some(p.categoryId)
    ensures e.title == p.title && e.imageUrl == p.imageUrl && e.price == p.price
    ensures e.createdAt == now
    ensures e.isFree == (p.isFree == Some(true))
    ensures e.startDateTime == p.startDateTime.GetOr(now) && e.endDateTime == p.endDateTime.GetOr(now)
    ensures e.description == p.description && e.location == p.location && e.url == p.url
  {
    Event(id, p.title, p.description, p.location, now, p.imageUrl,
          p.startDateTime.GetOr(now), p.endDateTime.GetOr(now), p.price,
          p.isFree.GetOr(false), p.url, Some(p.categoryId), Some(organizer))
  }

  /** The event after an update: the form's fields over the stored document, `category := categoryId`. */
  function PatchedEvent(e: Event, p: EventPatch): (r: Event)
    ensures r.id == e.id && r.createdAt == e.createdAt && r.organizer == e.organizer
    ensures r.category == Some(p.categoryId)
    ensures r.title == p.title && r.imageUrl == p.imageUrl && r.price == p.price && r.isFree == p.isFree
    ensures r.description == p.description && r.location == p.location && r.url == p.url
    ensures r.startDateTime == p.startDateTime && r.endDateTime == p.endDateTime
  {
    e.(title := p.title, description := p.description, location := p.location,
       imageUrl := p.imageUrl, startDateTime := p.startDateTime, endDateTime := p.endDateTime,
       price := p.price, isFree := p.isFree, url := p.url, category := Some(p.categoryId))
  }

  /** The order `createOrder` stores: `event := eventId`, `buyer := buyerId`, `createdAt` defaulting to now. */
  function NewOrder(id: Id, p: OrderParams, now: Time): (o: Order)
    ensures o.id == id && o.stripeId == p.stripeId && o.totalAmount == Some(p.totalAmount)
    ensures o.event == Some(p.eventId) && o.buyer == Some(p.buyerId)
    ensures o.createdAt == p.createdAt.GetOr(now)
  {
    Order(id, p.createdAt.GetOr(now), p.stripeId, Some(p.totalAmount), Some(p.eventId), Some(p.buyerId))
  }

  /** The user `createUser` stores: the record as given, with no event or order lists. */
  function NewUser(id: Id, p: UserParams): (u: User)
    ensures u.id == id && u.clerkId == p.clerkId && u.email == p.email && u.username == p.username
    ensures u.firstName == p.firstName && u.lastName == p.lastName && u.photo == p.photo
    ensures u.events == [] && u.orders == []
  {
    User(id, p.clerkId, p.email, p.username, p.firstName, p.lastName, p.photo, [], [])
  }

  /** The user after `updateUser`: names, username and photo replaced; email and ids kept. */
  function PatchedUser(u: User, p: UserPatch): (r: User)
    ensures r.id == u.id && r.clerkId == u.clerkId && r.email == u.email
    ensures r.events == u.events && r.orders == u.orders
    ensures r.username == p.username && r.firstName == p.firstName && r.lastName == p.lastName
    ensures r.photo == p.photo
  {
    u.(firstName := p.firstName, lastName := p.lastName, username := p.username, photo := p.photo)
  }

  // ---------------------------------------------------------------------------
  // Unique indexes and document ids
  // ---------------------------------------------------------------------------

  /** No two elements of `s` share a key. */
  ghost predicate UniqueBy<T>(s: seq<T>, key: T -> string)
  {
    forall i, j :: 0 <= i < j < |s| ==> key(s[i]) != key(s[j])
  }

  ghost predicate UsersWellFormed(users: seq<User>)
  {
    UniqueBy(users, (u: User) => u.id) &&
    UniqueBy(users, (u: User) => u.clerkId) &&
    UniqueBy(users, (u: User) => u.email) &&
    UniqueBy(users, (u: User) => u.username)
  }

  ghost predicate CategoriesWellFormed(categories: seq<Category>)
  {
    UniqueBy(categories, (c: Category) => c.id) && UniqueBy(categories, (c: Category) => c.name)
  }

  ghost predicate EventsWellFormed(events: seq<Event>)
  {
    UniqueBy(events, (e: Event) => e.id)
  }

  ghost predicate OrdersWellFormed(orders: seq<Order>)
  {
    UniqueBy(orders, (o: Order) => o.id) && UniqueBy(orders, (o: Order) => o.stripeId)
  }

  /** Appending an element whose key is new keeps the keys unique. */
  lemma UniqueByAppend<T>(s: seq<T>, x: T, key: T -> string)
    requires UniqueBy(s, key)
    requires forall i :: 0 <= i < |s| ==> key(s[i]) != key(x)
    ensures UniqueBy(s + [x], key)
  {
    var t := s + [x];
    forall i, j | 0 <= i < j < |t| ensures key(t[i]) != key(t[j]) {
      if j < |s| { assert t[i] == s[i] && t[j] == s[j]; }
    }
  }

  /** Removing documents keeps the keys unique. */
  lemma {:induction false} UniqueByFilter<T>(s: seq<T>, p: T -> bool, key: T -> string)
    requires UniqueBy(s, key)
    ensures UniqueBy(Filter(s, p), key)
  {
    if s != [] {
      var tail := s[1..];
      assert UniqueBy(tail, key) by {
        forall i, j | 0 <= i < j < |tail| ensures key(tail[i]) != key(tail[j]) {
          assert tail[i] == s[i + 1] && tail[j] == s[j + 1];
        }
      }
      UniqueByFilter(tail, p, key);
      var rest := Filter(tail, p);
      if p(s[0]) {
        var t := [s[0]] + rest;
        forall i, j | 0 <= i < j < |t| ensures key(t[i]) != key(t[j]) {
          if i == 0 {
            assert t[j] == rest[j - 1] && t[j] in tail;
            var m :| 0 <= m < |tail| && tail[m] == t[j];
            assert s[m + 1] == t[j];
          } else {
            assert t[i] == rest[i - 1] && t[j] == rest[j - 1];
          }
        }
      }
    }
  }

  // ---------------------------------------------------------------------------
  // Lookups by key (findById / findOne)
  // ---------------------------------------------------------------------------

  function UserById(users: seq<User>, id: Id): (r: Option<User>)
    ensures r.Some? ==> r.value in users && r.value.id == id
    ensures r.None? <==> forall i :: 0 <= i < |users| ==> users[i].id != id
  {
    match Find(users, (u: User) => u.id == id)
    case None => None
    case Some(i) => Some(users[i])
  }

  function EventById(events: seq<Event>, id: Id): (r: Option<Event>)
    ensures r.Some? ==> r.value in events && r.value.id == id
    ensures r.None? <==> forall i :: 0 <= i < |events| ==> events[i].id != id
    ensures r.Some? ==> exists i :: 0 <= i < |events| && events[i] == r.value &&
                          forall j :: 0 <= j < i ==> events[j].id != id
  {
    match Find(events, (e: Event) => e.id == id)
    case None => None
    case Some(i) => Some(events[i])
  }

  function CategoryById(categories: seq<Category>, id: Id): (r: Option<Category>)
    ensures r.Some? ==> r.value in categories && r.value.id == id
    ensures r.None? <==> forall i :: 0 <= i < |categories| ==> categories[i].id != id
  {
    match Find(categories, (c: Category) => c.id == id)
    case None => None
    case Some(i) => Some(categories[i])
  }
}
