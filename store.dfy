/** The relational store and the key-value cache the handlers share.

    Every table is a sequence of rows held in a field of `Database`; an `INSERT`
    appends a row and the one `UPDATE` the handlers issue (the availability
    decrement) rewrites rows in place. The cache is a map from key to value and the
    expiry the value was written with; expiry itself happens outside the model. */
module Store {
  import opened Text

  /** A row of `menu_items`. Prices are integer cents. */
  datatype MenuItem = MenuItem(
    id: int,
    name: string,
    description: Option<string>,
    priceCents: int,
    allergens: Option<seq<string>>,
    dietaryFlags: Option<seq<string>>,
    categoryId: int,
    popular: bool,
    spicyLevel: Option<int>,
    available: bool)

  /** A row of `menu_categories`. */
  datatype MenuCategory = MenuCategory(id: int, name: string, displayOrder: int)

  /** A row of `table_availability`. */
  datatype Slot = Slot(date: string, timeSlot: string, availableTables: int, maxPartySize: int)

  /** A row of `reservations`. */
  datatype ReservationRow = ReservationRow(
    id: int,
    confirmationCode: string,
    customerName: string,
    customerPhone: string,
    customerEmail: Option<string>,
    partySize: int,
    date: string,
    time: string,
    specialRequests: Option<string>,
    dietaryRestrictions: Option<string>,
    occasion: Option<string>,
    status: string,
    sessionId: Option<string>)

  datatype OrderType = Delivery | Pickup

  /** A row of `orders`. */
  datatype OrderRow = OrderRow(
    id: int,
    orderNumber: string,
    customerName: string,
    customerPhone: string,
    customerEmail: Option<string>,
    orderType: OrderType,
    deliveryAddress: Option<string>,
    deliveryCity: Option<string>,
    deliveryPostalCode: Option<string>,
    totalCents: int,
    specialInstructions: Option<string>,
    status: string,
    estimatedMinutes: int,
    sessionId: Option<string>)

  /** A row of `order_items`; `itemPrice` is the menu price copied at order time. */
  datatype OrderItemRow = OrderItemRow(
    orderId: int,
    menuItemId: int,
    menuItemName: string,
    quantity: int,
    modifications: Option<string>,
    itemPrice: int)

  /** `LOWER(name) = LOWER(x) AND available = true`. */
  predicate NameMatches(m: MenuItem, name: string) {
    m.available && EqualsIgnoreCase(m.name, name)
  }

  /** The single-row lookup `... WHERE LOWER(name) = LOWER(x) AND available = true LIMIT 1`.
      SQL promises some matching row, or none when no row matches; the model takes the
      first in table order. A missing name binds NULL and matches nothing. */
  function FindAvailable(items: seq<MenuItem>, name: Option<string>): (r: Option<MenuItem>)
    ensures r.Some? ==> name.Some? && r.value in items && NameMatches(r.value, name.value)
    ensures r.None? ==> name.None? || forall m :: m in items ==> !NameMatches(m, name.value)
    decreases |items|
  {
    if name.None? || |items| == 0 then None
    else if NameMatches(items[0], name.value) then Some(items[0])
    else FindAvailable(items[1..], name)
  }

  /** The row the availability decrement leaves in place of `s`:
      `SET available_tables = available_tables - 1 WHERE date = d AND time_slot = t
      AND available_tables > 0`. */
  function DecrementRow(s: Slot, date: string, time: string): Slot {
    if s.date == date && s.timeSlot == time && s.availableTables > 0
    then s.(availableTables := s.availableTables - 1)
    else s
  }

  /** The table after the availability decrement. It keeps the table's length and every
      row's slot identity, takes one table off exactly the rows that match the date and
      time and still have one, and leaves every other row as it was; so a count that was
      not negative never becomes negative. */
  function Decremented(slots: seq<Slot>, date: string, time: string): (r: seq<Slot>)
    ensures |r| == |slots|
    ensures forall i :: 0 <= i < |slots| ==>
      var before, after := slots[i], r[i];
      && after.date == before.date && after.timeSlot == before.timeSlot
      && after.maxPartySize == before.maxPartySize
      && (before.date == date && before.timeSlot == time && before.availableTables > 0 ==>
            after.availableTables == before.availableTables - 1)
      && (!(before.date == date && before.timeSlot == time && before.availableTables > 0) ==> after == before)
      && (before.availableTables >= 0 ==> after.availableTables >= 0)
  {
    seq(|slots|, i requires 0 <= i < |slots| => DecrementRow(slots[i], date, time))
  }

  /** The store failures the handlers distinguish: which statement throws, if any. */
  datatype CacheAsideFault = NoFault | CacheReadFails | QueryFails | CacheWriteFails

  class Database {
    var menuItems: seq<MenuItem>
    var categories: seq<MenuCategory>
    var slots: seq<Slot>
    var reservations: seq<ReservationRow>
    var orders: seq<OrderRow>
    var orderItems: seq<OrderItemRow>

    constructor (items: seq<MenuItem>, cats: seq<MenuCategory>, avail: seq<Slot>)
      ensures menuItems == items && categories == cats && slots == avail
      ensures reservations == [] && orders == [] && orderItems == []
    {
      menuItems, categories, slots := items, cats, avail;
      reservations, orders, orderItems := [], [], [];
    }

    method InsertReservation(row: ReservationRow)
      modifies this`reservations
      ensures reservations == old(reservations) + [row]
    {
      reservations := reservations + [row];
    }

    method InsertOrder(row: OrderRow)
      modifies this`orders
      ensures orders == old(orders) + [row]
    {
      orders := orders + [row];
    }

    method InsertOrderItem(row: OrderItemRow)
      modifies this`orderItems
      ensures orderItems == old(orderItems) + [row]
    {
      orderItems := orderItems + [row];
    }

    /** The `UPDATE table_availability` statement, applied row by row in place. */
    method DecrementAvailability(date: string, time: string)
      modifies this`slots
      ensures slots == Decremented(old(slots), date, time)
    {
      var i := 0;
      while i < |slots|
        invariant 0 <= i <= |slots| == |old(slots)|
        invariant forall k :: 0 <= k < i ==> slots[k] == DecrementRow(old(slots)[k], date, time)
        invariant forall k :: i <= k < |slots| ==> slots[k] == old(slots)[k]
      {
        var s := slots[i];
        if s.date == date && s.timeSlot == time && s.availableTables > 0 {
          slots := slots[i := s.(availableTables := s.availableTables - 1)];
        }
        i := i + 1;
      }
    }
  }

  /** A cached value and the expiry (`ex`, in seconds) it was written with. */
  datatype CacheEntry<V> = CacheEntry(value: V, ttlSeconds: nat)

  /** The key-value cache. */
  class KvStore<V> {
    var entries: map<string, CacheEntry<V>>

    constructor ()
      ensures entries == map[]
    {
      entries := map[];
    }

    /** `kv.get(key)`: the value, or null on a miss. */
    method Get(key: string) returns (r: Option<V>)
      ensures key in entries <==> r.Some?
      ensures key in entries ==> r.value == entries[key].value
    {
      r := if key in entries then Some(entries[key].value) else None;
    }

    /** `kv.set(key, value, { ex: ttl })`. */
    method Set(key: string, value: V, ttl: nat)
      modifies this
      ensures entries == old(entries)[key := CacheEntry(value, ttl)]
    {
      entries := entries[key := CacheEntry(value, ttl)];
    }
  }
}
