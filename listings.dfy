/**
 * The read-only actions: the three paged event listings, the event and user
 * lookups, the category list, and the two order listings. Each is a function
 * of the store's collections (in natural order); joins ("populate", `$lookup`)
 * are explicit lookups by id.
 */
module Listings {
  import opened Common
  import opened Text
  import opened Models
  import opened Errors
  import opened Paging

  /** Default page sizes of `getAllEvents`, `getEventsByUser`, `getRelatedEventsByCategory`, `getOrdersByUser`. */
  const AllEventsPageSize: nat := 6
  const UserEventsPageSize: nat := 6
  const RelatedEventsPageSize: nat := 3
  const UserOrdersPageSize: nat := 3

  /** A JavaScript default parameter: the given value, or the default when it is absent. */
  function LimitOr(limit: Option<nat>, default: nat): nat
  {
    limit.GetOr(default)
  }

  function EventCreatedAt(e: Event): int
  {
    e.createdAt
  }

  function OrderCreatedAt(o: Order): int
  {
    o.createdAt
  }

  // ---------------------------------------------------------------------------
  // Populating an event: organizer (_id firstName lastName) and category (_id name)
  // ---------------------------------------------------------------------------

  datatype UserSummary = UserSummary(id: Id, firstName: string, lastName: string)

  /** An event as the listings return it, its two references replaced by the referenced records (or null). */
  datatype EventView = EventView(event: Event, organizer: Option<UserSummary>, category: Option<Category>)

  function PopulateOrganizer(users: seq<User>, organizer: Option<Id>): (r: Option<UserSummary>)
    ensures r.Some? <==> organizer.Some? && UserById(users, organizer.value).Some?
    ensures r.Some? ==> r.value.id == organizer.value
    ensures r.Some? ==> var u := UserById(users, organizer.value).value;
      u in users && r.value == UserSummary(u.id, u.firstName, u.lastName)
  {
    match organizer
    case None => None
    case Some(id) =>
      match UserById(users, id)
      case None => None
      case Some(u) => Some(UserSummary(u.id, u.firstName, u.lastName))
  }

  function PopulateCategory(categories: seq<Category>, category: Option<Id>): (r: Option<Category>)
    ensures r.Some? <==> category.Some? && CategoryById(categories, category.value).Some?
    ensures r.Some? ==> r.value in categories && r.value.id == category.value
  {
    match category
    case None => None
    case Some(id) => CategoryById(categories, id)
  }

  /** The event with `organizer` and `category` populated; each is null when its id resolves to nothing. */
  function PopulateEvent(e: Event, users: seq<User>, categories: seq<Category>): (v: EventView)
    ensures v.event == e
    ensures v.organizer == PopulateOrganizer(users, e.organizer)
    ensures v.category == PopulateCategory(categories, e.category)
  {
    EventView(e, PopulateOrganizer(users, e.organizer), PopulateCategory(categories, e.category))
  }

  function PopulateEvents(events: seq<Event>, users: seq<User>, categories: seq<Category>): (r: seq<EventView>)
    ensures |r| == |events|
    ensures forall i :: 0 <= i < |r| ==> r[i] == PopulateEvent(events[i], users, categories)
  {
    seq(|events|, i requires 0 <= i < |events| => PopulateEvent(events[i], users, categories))
  }

  // ---------------------------------------------------------------------------
  // The paged event listings
  // ---------------------------------------------------------------------------

  /** `Event.find(cond).sort({createdAt: 'desc'}).skip(..).limit(..)`, populated, with the page count. */
  function EventListing(events: seq<Event>, users: seq<User>, categories: seq<Category>,
                        cond: Event -> bool, page: int, limit: nat): Outcome<Paged<EventView>>
    requires limit > 0
  {
    match Paginate(Filter(events, cond), EventCreatedAt, page, limit)
    case Failed(t) => Failed(t)
    case Ok(p) => Ok(Paged(PopulateEvents(p.data, users, categories), p.totalPages))
  }

  /** The events a listing shows, without their populated references. */
  function ShownEvents(views: seq<EventView>): (r: seq<Event>)
    ensures |r| == |views|
    ensures forall i :: 0 <= i < |r| ==> r[i] == views[i].event
  {
    seq(|views|, i requires 0 <= i < |views| => views[i].event)
  }

  /**
   * The paging contract of every event listing: for a page from 1 on, at most
   * `limit` events, each stored and satisfying the condition, newest first,
   * the slice at `(page - 1) * limit` of the sorted matches, and
   * `totalPages = ceil(matchCount / limit)`; a page below 1 is refused.
   */
  lemma EventListingSpec(events: seq<Event>, users: seq<User>, categories: seq<Category>,
                         cond: Event -> bool, page: int, limit: nat)
    requires limit > 0
    ensures var r := EventListing(events, users, categories, cond, page, limit);
      && (r.Failed? <==> page < 1)
      && (r.Ok? ==>
            && |r.value.data| <= limit
            && r.value.totalPages == CeilDiv(|Filter(events, cond)|, limit)
            && (forall i :: 0 <= i < |r.value.data| ==>
                  r.value.data[i].event in events && cond(r.value.data[i].event))
            && SortedDesc(ShownEvents(r.value.data), EventCreatedAt)
            && ShownEvents(r.value.data) == PageSlice(SortDesc(Filter(events, cond), EventCreatedAt), page, limit)
            && (forall i :: 0 <= i < |r.value.data| ==>
                  r.value.data[i] == PopulateEvent(r.value.data[i].event, users, categories)))
  {
    var matches := Filter(events, cond);
    if page >= 1 {
      var r := EventListing(events, users, categories, cond, page, limit);
      var p := Paginate(matches, EventCreatedAt, page, limit).value;
      assert ShownEvents(r.value.data) == p.data;
      PageItemsAreMatches(matches, EventCreatedAt, page, limit);
      PageIsSorted(matches, EventCreatedAt, page, limit);
      forall i | 0 <= i < |r.value.data|
        ensures r.value.data[i].event in events && cond(r.value.data[i].event)
      {
        assert r.value.data[i].event == p.data[i];
        assert p.data[i] in p.data;
      }
    }
  }

  /** A page past the last event page is empty, not an error. */
  lemma EventListingBeyondLastPage(events: seq<Event>, users: seq<User>, categories: seq<Category>,
                                   cond: Event -> bool, page: int, limit: nat)
    requires limit > 0 && page >= 1
    requires page > CeilDiv(|Filter(events, cond)|, limit)
    ensures EventListing(events, users, categories, cond, page, limit)
         == Ok(Paged([], CeilDiv(|Filter(events, cond)|, limit)))
  {
    PageBeyondLastIsEmpty(Filter(events, cond), EventCreatedAt, page, limit);
  }

  /**
   * `getCategoryByName`: the id of the first category (natural order) whose
   * name contains `name` case-insensitively; no lookup at all for an empty name.
   */
  function CategoryIdByName(categories: seq<Category>, name: string): (r: Option<Id>)
    ensures name == "" ==> r.None?
    ensures r.Some? ==> exists i :: 0 <= i < |categories| && categories[i].id == r.value &&
                          MatchesIgnoringCase(categories[i].name, name) &&
                          forall j :: 0 <= j < i ==> !MatchesIgnoringCase(categories[j].name, name)
    ensures name != "" && r.None? ==>
              forall i :: 0 <= i < |categories| ==> !MatchesIgnoringCase(categories[i].name, name)
  {
    if name == "" then None
    else match Find(categories, (c: Category) => MatchesIgnoringCase(c.name, name))
      case None => None
      case Some(i) => Some(categories[i].id)
  }

  /** The `$and` of the title condition (dropped for an empty query) and the category condition (dropped when no category was found). */
  predicate AllEventsCondition(e: Event, query: string, categoryId: Option<Id>)
  {
    (query == "" || MatchesIgnoringCase(e.title, query)) &&
    (categoryId.None? || e.category == categoryId)
  }

  /** `getAllEvents({query, limit = 6, page, category})`. */
  function GetAllEvents(events: seq<Event>, users: seq<User>, categories: seq<Category>,
                        query: string, category: string, page: int, limit: Option<nat>): Outcome<Paged<EventView>>
    requires limit.Some? ==> limit.value > 0
  {
    var categoryId := CategoryIdByName(categories, category);
    EventListing(events, users, categories, (e: Event) => AllEventsCondition(e, query, categoryId),
                 page, LimitOr(limit, AllEventsPageSize))
  }

  /**
   * What `getAllEvents` shows: events whose title contains the query (any title
   * when the query is empty) and, when a category name was given and some
   * category matched it, that category's events; at most `limit` (default 6) of
   * them, newest first, with the page count over all matches.
   */
  lemma GetAllEventsSpec(events: seq<Event>, users: seq<User>, categories: seq<Category>,
                         query: string, category: string, page: int, limit: Option<nat>)
    requires limit.Some? ==> limit.value > 0
    ensures var r := GetAllEvents(events, users, categories, query, category, page, limit);
      var categoryId := CategoryIdByName(categories, category);
      var cond := (e: Event) => AllEventsCondition(e, query, categoryId);
      && (r.Failed? <==> page < 1)
      && (r.Ok? ==>
            && |r.value.data| <= LimitOr(limit, AllEventsPageSize)
            && r.value.totalPages == CeilDiv(|Filter(events, cond)|, LimitOr(limit, AllEventsPageSize))
            && (forall i :: 0 <= i < |r.value.data| ==>
                  var e := r.value.data[i].event;
                  && e in events
                  && (query != "" ==> MatchesIgnoringCase(e.title, query))
                  && (categoryId.Some? ==> e.category == categoryId))
            && SortedDesc(ShownEvents(r.value.data), EventCreatedAt)
            && ShownEvents(r.value.data)
               == PageSlice(SortDesc(Filter(events, cond), EventCreatedAt), page, LimitOr(limit, AllEventsPageSize))
            && (forall i :: 0 <= i < |r.value.data| ==>
                  r.value.data[i] == PopulateEvent(r.value.data[i].event, users, categories)))
  {
    var categoryId := CategoryIdByName(categories, category);
    EventListingSpec(events, users, categories, (e: Event) => AllEventsCondition(e, query, categoryId),
                     page, LimitOr(limit, AllEventsPageSize));
  }

  /** When no category name matches, the category condition is dropped: the listing is the unfiltered-by-category one. */
  lemma UnknownCategoryIsIgnored(events: seq<Event>, users: seq<User>, categories: seq<Category>,
                                 query: string, category: string, page: int, limit: Option<nat>)
    requires limit.Some? ==> limit.value > 0
    requires forall i :: 0 <= i < |categories| ==> !MatchesIgnoringCase(categories[i].name, category)
    ensures GetAllEvents(events, users, categories, query, category, page, limit)
         == GetAllEvents(events, users, categories, query, "", page, limit)
  {
    assert CategoryIdByName(categories, category) == None;
    assert CategoryIdByName(categories, "") == None;
  }

  /** `getEventsByUser({userId, limit = 6, page})`. */
  function GetEventsByUser(events: seq<Event>, users: seq<User>, categories: seq<Category>,
                           userId: Id, page: int, limit: Option<nat>): Outcome<Paged<EventView>>
    requires limit.Some? ==> limit.value > 0
  {
    EventListing(events, users, categories, (e: Event) => e.organizer == Some(userId),
                 page, LimitOr(limit, UserEventsPageSize))
  }

  /** `getEventsByUser` shows only events organized by `userId`, at most `limit` (default 6). */
  lemma GetEventsByUserSpec(events: seq<Event>, users: seq<User>, categories: seq<Category>,
                            userId: Id, page: int, limit: Option<nat>)
    requires limit.Some? ==> limit.value > 0
    ensures var r := GetEventsByUser(events, users, categories, userId, page, limit);
      && (r.Failed? <==> page < 1)
      && (r.Ok? ==>
            && |r.value.data| <= LimitOr(limit, UserEventsPageSize)
            && r.value.totalPages ==
                 CeilDiv(|Filter(events, (e: Event) => e.organizer == Some(userId))|, LimitOr(limit, UserEventsPageSize))
            && (forall i :: 0 <= i < |r.value.data| ==>
                  r.value.data[i].event in events && r.value.data[i].event.organizer == Some(userId))
            && SortedDesc(ShownEvents(r.value.data), EventCreatedAt)
            && ShownEvents(r.value.data)
               == PageSlice(SortDesc(Filter(events, (e: Event) => e.organizer == Some(userId)), EventCreatedAt),
                            page, LimitOr(limit, UserEventsPageSize))
            && (forall i :: 0 <= i < |r.value.data| ==>
                  r.value.data[i] == PopulateEvent(r.value.data[i].event, users, categories)))
  {
    EventListingSpec(events, users, categories, (e: Event) => e.organizer == Some(userId),
                     page, LimitOr(limit, UserEventsPageSize));
  }

  /** `getRelatedEventsByCategory({categoryId, eventId, limit = 3, page = 1})`. */
  function GetRelatedEventsByCategory(events: seq<Event>, users: seq<User>, categories: seq<Category>,
                                      categoryId: Id, eventId: Id, page: Option<int>, limit: Option<nat>)
    : Outcome<Paged<EventView>>
    requires limit.Some? ==> limit.value > 0
  {
    EventListing(events, users, categories, (e: Event) => e.category == Some(categoryId) && e.id != eventId,
                 page.GetOr(1), LimitOr(limit, RelatedEventsPageSize))
  }

  /** Related events share the category, never include the event itself, and number at most `limit` (default 3). */
  lemma GetRelatedEventsSpec(events: seq<Event>, users: seq<User>, categories: seq<Category>,
                             categoryId: Id, eventId: Id, page: Option<int>, limit: Option<nat>)
    requires limit.Some? ==> limit.value > 0
    ensures var r := GetRelatedEventsByCategory(events, users, categories, categoryId, eventId, page, limit);
      var related := Filter(events, (e: Event) => e.category == Some(categoryId) && e.id != eventId);
      && (r.Failed? <==> page.GetOr(1) < 1)
      && (r.Ok? ==>
            && |r.value.data| <= LimitOr(limit, RelatedEventsPageSize)
            && r.value.totalPages == CeilDiv(|related|, LimitOr(limit, RelatedEventsPageSize))
            && (forall i :: 0 <= i < |r.value.data| ==>
                  var e := r.value.data[i].event;
                  e in events && e.category == Some(categoryId) && e.id != eventId)
            && SortedDesc(ShownEvents(r.value.data), EventCreatedAt)
            && ShownEvents(r.value.data)
               == PageSlice(SortDesc(related, EventCreatedAt), page.GetOr(1), LimitOr(limit, RelatedEventsPageSize))
            && (forall i :: 0 <= i < |r.value.data| ==>
                  r.value.data[i] == PopulateEvent(r.value.data[i].event, users, categories)))
  {
    EventListingSpec(events, users, categories,
                     (e: Event) => e.category == Some(categoryId) && e.id != eventId,
                     page.GetOr(1), LimitOr(limit, RelatedEventsPageSize));
  }

  // ---------------------------------------------------------------------------
  // Single lookups and the category list
  // ---------------------------------------------------------------------------

  /** `getEventById`: the populated event, or "Event not found". */
  function GetEventById(events: seq<Event>, users: seq<User>, categories: seq<Category>, id: Id)
    : (r: Outcome<EventView>)
    ensures r.Failed? <==> forall i :: 0 <= i < |events| ==> events[i].id != id
    ensures r.Failed? ==> r.cause == PlainError("Event not found")
    ensures r.Ok? ==> r.value.event in events && r.value.event.id == id
    ensures r.Ok? ==> exists i :: 0 <= i < |events| && events[i] == r.value.event &&
                        forall j :: 0 <= j < i ==> events[j].id != id
    ensures r.Ok? ==> r.value.organizer == PopulateOrganizer(users, r.value.event.organizer)
    ensures r.Ok? ==> r.value.category == PopulateCategory(categories, r.value.event.category)
  {
    match EventById(events, id)
    case None => Failed(PlainError("Event not found"))
    case Some(e) => Ok(PopulateEvent(e, users, categories))
  }

  /** `getUserById`: the stored user, or "User not found". */
  function GetUserById(users: seq<User>, id: Id): (r: Outcome<User>)
    ensures r.Failed? <==> forall i :: 0 <= i < |users| ==> users[i].id != id
    ensures r.Failed? ==> r.cause == PlainError("User not found")
    ensures r.Ok? ==> r.value in users && r.value.id == id
  {
    match UserById(users, id)
    case None => Failed(PlainError("User not found"))
    case Some(u) => Ok(u)
  }

  /** `getAllCategories`: every stored category in natural order, unfiltered; it never fails. */
  function GetAllCategories(categories: seq<Category>): (r: Outcome<seq<Category>>)
    ensures r.Ok? && |r.value| == |categories|
    ensures forall c :: c in categories <==> c in r.value
  {
    Ok(categories)
  }

  // ---------------------------------------------------------------------------
  // Orders of one event: $lookup buyer, $unwind, $lookup event, $unwind, $project, $match
  // ---------------------------------------------------------------------------

  function BuyerName(u: User): string
  {
    u.firstName + " " + u.lastName
  }

  /**
   * The projected row of one order, or nothing when its buyer or its event does
   * not resolve: an `$unwind` of an empty lookup drops the document.
   */
  function JoinOrder(o: Order, users: seq<User>, events: seq<Event>): (r: Option<OrderItem>)
    ensures r.Some? <==> o.buyer.Some? && UserById(users, o.buyer.value).Some? &&
                         o.event.Some? && EventById(events, o.event.value).Some?
    ensures r.Some? ==>
              var u := UserById(users, o.buyer.value).value;
              var e := EventById(events, o.event.value).value;
              r.value == OrderItem(o.id, o.totalAmount, o.createdAt, e.title, e.id, u.firstName + " " + u.lastName)
  {
    if o.buyer.None? || o.event.None? then None
    else match (UserById(users, o.buyer.value), EventById(events, o.event.value))
      case (Some(u), Some(e)) => Some(OrderItem(o.id, o.totalAmount, o.createdAt, e.title, e.id, BuyerName(u)))
      case _ => None
  }

  /** The joined and projected rows, in the orders' natural order. */
  function JoinedRows(orders: seq<Order>, users: seq<User>, events: seq<Event>): seq<OrderItem>
  {
    if orders == [] then []
    else
      var rest := JoinedRows(orders[1..], users, events);
      match JoinOrder(orders[0], users, events)
      case None => rest
      case Some(row) => [row] + rest
  }

  /** A row is produced exactly when some order joins to it. */
  lemma {:induction false} JoinedRowsIff(orders: seq<Order>, users: seq<User>, events: seq<Event>, row: OrderItem)
    ensures row in JoinedRows(orders, users, events) <==>
            exists i :: 0 <= i < |orders| && JoinOrder(orders[i], users, events) == Some(row)
  {
    if orders != [] {
      JoinedRowsIff(orders[1..], users, events, row);
      if exists i :: 0 <= i < |orders| && JoinOrder(orders[i], users, events) == Some(row) {
        var i :| 0 <= i < |orders| && JoinOrder(orders[i], users, events) == Some(row);
        if i > 0 {
          assert orders[1..][i - 1] == orders[i];
        }
      }
      if exists i :: 0 <= i < |orders[1..]| && JoinOrder(orders[1..][i], users, events) == Some(row) {
        var i :| 0 <= i < |orders[1..]| && JoinOrder(orders[1..][i], users, events) == Some(row);
        assert orders[i + 1] == orders[1..][i];
      }
    }
  }

  predicate RowMatches(row: OrderItem, searchString: string, eventId: Id)
  {
    row.eventId == eventId && MatchesIgnoringCase(row.buyer, searchString)
  }

  /** `getOrdersByEvent({searchString, eventId})`. */
  function GetOrdersByEvent(orders: seq<Order>, users: seq<User>, events: seq<Event>,
                            searchString: string, eventId: Id): (r: Outcome<seq<OrderItem>>)
    ensures r.Failed? <==> eventId == ""
    ensures r.Failed? ==> r.cause == PlainError("Event ID is required")
  {
    if eventId == "" then Failed(PlainError("Event ID is required"))
    else Ok(Filter(JoinedRows(orders, users, events), (row: OrderItem) => RowMatches(row, searchString, eventId)))
  }

  /**
   * The rows of `getOrdersByEvent` are exactly the projections of the orders
   * whose buyer and event both resolve, whose event is `eventId`, and whose
   * buyer's "first last" name contains the search text case-insensitively.
   */
  lemma GetOrdersByEventSpec(orders: seq<Order>, users: seq<User>, events: seq<Event>,
                             searchString: string, eventId: Id, row: OrderItem)
    requires eventId != ""
    ensures row in GetOrdersByEvent(orders, users, events, searchString, eventId).value <==>
            exists i :: 0 <= i < |orders| && JoinOrder(orders[i], users, events) == Some(row) &&
                        row.eventId == eventId && MatchesIgnoringCase(row.buyer, searchString)
  {
    var rows := JoinedRows(orders, users, events);
    var kept := Filter(rows, (r: OrderItem) => RowMatches(r, searchString, eventId));
    JoinedRowsIff(orders, users, events, row);
    if row in kept {
      var k :| 0 <= k < |kept| && kept[k] == row;
    }
    if row in rows && RowMatches(row, searchString, eventId) {
      var k :| 0 <= k < |rows| && rows[k] == row;
    }
  }

  /** An empty search keeps every joined row of the event. */
  lemma EmptySearchKeepsAll(orders: seq<Order>, users: seq<User>, events: seq<Event>, eventId: Id, row: OrderItem)
    requires eventId != ""
    ensures row in GetOrdersByEvent(orders, users, events, "", eventId).value <==>
            row in JoinedRows(orders, users, events) && row.eventId == eventId
  {
    EmptyPatternMatchesAll(row.buyer);
    var rows := JoinedRows(orders, users, events);
    var kept := Filter(rows, (r: OrderItem) => RowMatches(r, "", eventId));
    if row in kept {
      var k :| 0 <= k < |kept| && kept[k] == row;
    }
    if row in rows && row.eventId == eventId {
      var k :| 0 <= k < |rows| && rows[k] == row;
    }
  }

  // ---------------------------------------------------------------------------
  // Orders of one buyer, each with its event and that event's organizer
  // ---------------------------------------------------------------------------

  datatype OrderEvent = OrderEvent(event: Event, organizer: Option<UserSummary>)
  datatype OrderView = OrderView(order: Order, event: Option<OrderEvent>)

  /**
   * The order with `event` populated, and within it the event's organizer; the
   * event is null when the order has none or its id resolves to nothing.
   */
  function PopulateOrder(o: Order, events: seq<Event>, users: seq<User>): (v: OrderView)
    ensures v.order == o
    ensures v.event.Some? <==> o.event.Some? && EventById(events, o.event.value).Some?
    ensures v.event.Some? ==> v.event.value.event == EventById(events, o.event.value).value
    ensures v.event.Some? ==> v.event.value.organizer == PopulateOrganizer(users, v.event.value.event.organizer)
  {
    var ev := if o.event.None? then None else EventById(events, o.event.value);
    match ev
    case None => OrderView(o, None)
    case Some(e) => OrderView(o, Some(OrderEvent(e, PopulateOrganizer(users, e.organizer))))
  }

  function PopulateOrders(orders: seq<Order>, events: seq<Event>, users: seq<User>): (r: seq<OrderView>)
    ensures |r| == |orders|
    ensures forall i :: 0 <= i < |r| ==> r[i] == PopulateOrder(orders[i], events, users)
  {
    seq(|orders|, i requires 0 <= i < |orders| => PopulateOrder(orders[i], events, users))
  }

  /** The orders a listing shows, without their populated references. */
  function ShownOrders(views: seq<OrderView>): (r: seq<Order>)
    ensures |r| == |views|
    ensures forall i :: 0 <= i < |r| ==> r[i] == views[i].order
  {
    seq(|views|, i requires 0 <= i < |views| => views[i].order)
  }

  /** `getOrdersByUser({userId, limit = 3, page})`. */
  function GetOrdersByUser(orders: seq<Order>, events: seq<Event>, users: seq<User>,
                           userId: Id, page: int, limit: Option<nat>): Outcome<Paged<OrderView>>
    requires limit.Some? ==> limit.value > 0
  {
    var l := LimitOr(limit, UserOrdersPageSize);
    match Paginate(Filter(orders, (o: Order) => o.buyer == Some(userId)), OrderCreatedAt, page, l)
    case Failed(t) => Failed(t)
    case Ok(p) => Ok(Paged(PopulateOrders(p.data, events, users), p.totalPages))
  }

  /**
   * `getOrdersByUser` shows only orders bought by `userId`, at most `limit`
   * (default 3), newest first, with `totalPages = ceil(count / limit)`.
   */
  lemma GetOrdersByUserSpec(orders: seq<Order>, events: seq<Event>, users: seq<User>,
                            userId: Id, page: int, limit: Option<nat>)
    requires limit.Some? ==> limit.value > 0
    ensures var r := GetOrdersByUser(orders, events, users, userId, page, limit);
      var mine := Filter(orders, (o: Order) => o.buyer == Some(userId));
      && (r.Failed? <==> page < 1)
      && (r.Ok? ==>
            && |r.value.data| <= LimitOr(limit, UserOrdersPageSize)
            && r.value.totalPages == CeilDiv(|mine|, LimitOr(limit, UserOrdersPageSize))
            && (forall i :: 0 <= i < |r.value.data| ==>
                  r.value.data[i].order in orders && r.value.data[i].order.buyer == Some(userId))
            && (forall i, j :: 0 <= i < j < |r.value.data| ==>
                  r.value.data[i].order.createdAt >= r.value.data[j].order.createdAt)
            && (forall i :: 0 <= i < |r.value.data| ==>
                  Skip(page, LimitOr(limit, UserOrdersPageSize)) + i < |SortDesc(mine, OrderCreatedAt)| &&
                  r.value.data[i].order == SortDesc(mine, OrderCreatedAt)[Skip(page, LimitOr(limit, UserOrdersPageSize)) + i])
            && ShownOrders(r.value.data) == PageSlice(SortDesc(mine, OrderCreatedAt), page, LimitOr(limit, UserOrdersPageSize))
            && (forall i :: 0 <= i < |r.value.data| ==>
                  r.value.data[i] == PopulateOrder(r.value.data[i].order, events, users)))
  {
    var l := LimitOr(limit, UserOrdersPageSize);
    var mine := Filter(orders, (o: Order) => o.buyer == Some(userId));
    if page >= 1 {
      var p := Paginate(mine, OrderCreatedAt, page, l).value;
      PageItemsAreMatches(mine, OrderCreatedAt, page, l);
      PageIsSorted(mine, OrderCreatedAt, page, l);
      var r := GetOrdersByUser(orders, events, users, userId, page, limit);
      forall i | 0 <= i < |r.value.data|
        ensures r.value.data[i].order in orders && r.value.data[i].order.buyer == Some(userId)
      {
        assert r.value.data[i].order == p.data[i];
        assert p.data[i] in p.data;
      }
      forall i, j | 0 <= i < j < |r.value.data|
        ensures r.value.data[i].order.createdAt >= r.value.data[j].order.createdAt
      {
        assert r.value.data[i].order == p.data[i] && r.value.data[j].order == p.data[j];
      }
    }
  }
}
