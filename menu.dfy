/** The menu listing: answer from the cache when the key is present, otherwise select
    the available items (narrowed by category and by a dietary flag when those are
    given), joined with their category, in the listing order, cache the response for an
    hour and return it. */
module Menu {
  import opened Text
  import opened Store
  import Availability

  const CachePrefix: string := "menu:"
  const CacheTtlSeconds: nat := 3600
  const UnavailableMessage: string := "Unable to fetch menu items at this time. Please try again."

  datatype MenuRequest = MenuRequest(category: Option<string>, dietaryFilter: Option<string>)

  /** `menu:${category || 'all'}:${dietary_filter || 'none'}`: the prefix, then the
      category or "all", a ':', and the filter or "none" at the end. */
  function CacheKey(req: MenuRequest): (key: string)
    ensures StartsWith(key, CachePrefix)
    ensures var c := OrElse(req.category, "all");
            && |key| > |CachePrefix| + |c|
            && key[|CachePrefix|..|CachePrefix| + |c|] == c
            && key[|CachePrefix| + |c|] == ':'
            && key[|CachePrefix| + |c| + 1..] == OrElse(req.dietaryFilter, "none")
  {
    CachePrefix + OrElse(req.category, "all") + ":" + OrElse(req.dietaryFilter, "none")
  }

  /** The names the handler's map knows. */
  const KnownCategories: set<string> := {"starters", "traditional", "seafood", "mains", "desserts", "drinks"}

  /** The handler's fixed map from category names to `menu_categories` ids. */
  function CategoryId(name: string): (r: Option<int>)
    ensures r.Some? <==> name in KnownCategories
    ensures r.Some? ==> 1 <= r.value <= 6
  {
    if name == "starters" then Some(1)
    else if name == "traditional" then Some(2)
    else if name == "seafood" then Some(3)
    else if name == "mains" then Some(4)
    else if name == "desserts" then Some(5)
    else if name == "drinks" then Some(6)
    else None
  }

  /** Different category names never map to the same id. */
  lemma CategoryIdInjective(a: string, b: string)
    requires CategoryId(a).Some? && CategoryId(a) == CategoryId(b)
    ensures a == b
  {
  }

  /** A row of the join `menu_items mi JOIN menu_categories mc ON mi.category_id = mc.id`,
      with the columns the listing uses from `mc`. */
  datatype MenuRow = MenuRow(item: MenuItem, categoryName: string, displayOrder: int)

  function Joined(m: MenuItem, c: MenuCategory): MenuRow {
    MenuRow(m, c.name, c.displayOrder)
  }

  /** `dietary_filter = ANY(mi.dietary_flags)`: a NULL flag array matches nothing. */
  predicate HasFlag(m: MenuItem, flag: string) {
    m.dietaryFlags.Some? && flag in m.dietaryFlags.value
  }

  /** The four queries the handler chooses between, by which of `category` and
      `dietary_filter` are truthy. */
  datatype QueryShape = CategoryAndFilter | CategoryOnly | FilterOnly | AllItems

  function ShapeOf(req: MenuRequest): (shape: QueryShape)
    ensures shape == CategoryAndFilter <==> Present(req.category) && Present(req.dietaryFilter)
    ensures shape == CategoryOnly <==> Present(req.category) && !Present(req.dietaryFilter)
    ensures shape == FilterOnly <==> !Present(req.category) && Present(req.dietaryFilter)
    ensures shape == AllItems <==> !Present(req.category) && !Present(req.dietaryFilter)
  {
    if Present(req.category) && Present(req.dietaryFilter) then CategoryAndFilter
    else if Present(req.category) then CategoryOnly
    else if Present(req.dietaryFilter) then FilterOnly
    else AllItems
  }

  /** `mi.category_id = ${categoryId}`: an unmapped name binds NULL, which no row
      equals. */
  predicate InCategory(m: MenuItem, category: string) {
    CategoryId(category) == Some(m.categoryId)
  }

  /** The `WHERE` clause of the query the request selects. */
  predicate Where(req: MenuRequest, m: MenuItem)
    ensures Where(req, m) ==> m.available
    ensures Where(req, m) && Present(req.category) ==> req.category.value in KnownCategories
  {
    match ShapeOf(req)
    case CategoryAndFilter =>
      InCategory(m, req.category.value) && m.available && HasFlag(m, req.dietaryFilter.value)
    case CategoryOnly => InCategory(m, req.category.value) && m.available
    case FilterOnly => m.available && HasFlag(m, req.dietaryFilter.value)
    case AllItems => m.available
  }

  /** Across the four queries: an item qualifies when it is available, in the requested
      category if one is given, and carries the requested flag if one is given. */
  lemma WhereByField(req: MenuRequest, m: MenuItem)
    ensures Where(req, m) <==>
      && m.available
      && (Present(req.category) ==> InCategory(m, req.category.value))
      && (Present(req.dietaryFilter) ==> HasFlag(m, req.dietaryFilter.value))
  {
  }

  /** The join partners of one item, in table order. */
  function CategoryRows(m: MenuItem, cats: seq<MenuCategory>): seq<MenuRow>
    decreases |cats|
  {
    if |cats| == 0 then []
    else
      var head := if cats[0].id == m.categoryId then [Joined(m, cats[0])] else [];
      head + CategoryRows(m, cats[1..])
  }

  /** The rows the selected query returns, before `ORDER BY`. */
  function Matching(items: seq<MenuItem>, cats: seq<MenuCategory>, req: MenuRequest): seq<MenuRow>
    decreases |items|
  {
    if |items| == 0 then []
    else
      var head := if Where(req, items[0]) then CategoryRows(items[0], cats) else [];
      head + Matching(items[1..], cats, req)
  }

  lemma {:induction false} CategoryRowsMembers(m: MenuItem, cats: seq<MenuCategory>, r: MenuRow)
    ensures r in CategoryRows(m, cats) <==> exists c :: c in cats && c.id == m.categoryId && r == Joined(m, c)
    decreases |cats|
  {
    if |cats| > 0 {
      CategoryRowsMembers(m, cats[1..], r);
      assert cats == [cats[0]] + cats[1..];
    }
  }

  /** A row comes back exactly when it joins an item that satisfies the `WHERE` clause
      with that item's category. */
  lemma {:induction false} MatchingMembers(items: seq<MenuItem>, cats: seq<MenuCategory>, req: MenuRequest, r: MenuRow)
    ensures r in Matching(items, cats, req) <==>
      exists m, c :: m in items && c in cats && c.id == m.categoryId && Where(req, m) && r == Joined(m, c)
    decreases |items|
  {
    if |items| > 0 {
      MatchingMembers(items[1..], cats, req, r);
      CategoryRowsMembers(items[0], cats, r);
      assert items == [items[0]] + items[1..];
    }
  }

  /** Code-point order on names, shorter prefix first. */
  predicate NameLeq(a: string, b: string)
    decreases |a|
  {
    if |a| == 0 then true
    else if |b| == 0 then false
    else if a[0] != b[0] then a[0] < b[0]
    else NameLeq(a[1..], b[1..])
  }

  lemma {:induction false} NameLeqTotal(a: string, b: string)
    ensures NameLeq(a, b) || NameLeq(b, a)
    decreases |a|
  {
    if |a| > 0 && |b| > 0 && a[0] == b[0] {
      NameLeqTotal(a[1..], b[1..]);
    }
  }

  lemma {:induction false} NameLeqTransitive(a: string, b: string, c: string)
    requires NameLeq(a, b) && NameLeq(b, c)
    ensures NameLeq(a, c)
    decreases |a|
  {
    if |a| > 0 && |b| > 0 && |c| > 0 && a[0] == b[0] && b[0] == c[0] {
      NameLeqTransitive(a[1..], b[1..], c[1..]);
    }
  }

  /** The `ORDER BY` of the listing: `mc.display_order` first when no category is
      given, then `mi.popular DESC` (popular items first), then `mi.name ASC`. */
  predicate RowLeq(byDisplay: bool, a: MenuRow, b: MenuRow)
    ensures byDisplay && a.displayOrder < b.displayOrder ==> RowLeq(byDisplay, a, b)
    ensures byDisplay && a.displayOrder > b.displayOrder ==> !RowLeq(byDisplay, a, b)
    ensures (!byDisplay || a.displayOrder == b.displayOrder) && a.item.popular != b.item.popular ==>
      (RowLeq(byDisplay, a, b) <==> a.item.popular)
    ensures (!byDisplay || a.displayOrder == b.displayOrder) && a.item.popular == b.item.popular ==>
      (RowLeq(byDisplay, a, b) <==> NameLeq(a.item.name, b.item.name))
  {
    if byDisplay && a.displayOrder != b.displayOrder then a.displayOrder < b.displayOrder
    else if a.item.popular != b.item.popular then a.item.popular
    else NameLeq(a.item.name, b.item.name)
  }

  lemma RowLeqTotal(byDisplay: bool, a: MenuRow, b: MenuRow)
    ensures RowLeq(byDisplay, a, b) || RowLeq(byDisplay, b, a)
  {
    NameLeqTotal(a.item.name, b.item.name);
  }

  lemma RowLeqTransitive(byDisplay: bool, a: MenuRow, b: MenuRow, c: MenuRow)
    requires RowLeq(byDisplay, a, b) && RowLeq(byDisplay, b, c)
    ensures RowLeq(byDisplay, a, c)
  {
    if NameLeq(a.item.name, b.item.name) && NameLeq(b.item.name, c.item.name) {
      NameLeqTransitive(a.item.name, b.item.name, c.item.name);
    }
  }

  /** The two queries without a category order by the category's display order first. */
  predicate ByDisplayOrder(req: MenuRequest) {
    ShapeOf(req) == FilterOnly || ShapeOf(req) == AllItems
  }

  predicate Sorted(byDisplay: bool, rows: seq<MenuRow>) {
    forall i, j :: 0 <= i < j < |rows| ==> RowLeq(byDisplay, rows[i], rows[j])
  }

  function InsertRow(byDisplay: bool, r: MenuRow, s: seq<MenuRow>): seq<MenuRow>
    decreases |s|
  {
    if |s| == 0 then [r]
    else if RowLeq(byDisplay, r, s[0]) then [r] + s
    else [s[0]] + InsertRow(byDisplay, r, s[1..])
  }

  function SortRows(byDisplay: bool, rows: seq<MenuRow>): seq<MenuRow>
    decreases |rows|
  {
    if |rows| == 0 then [] else InsertRow(byDisplay, rows[0], SortRows(byDisplay, rows[1..]))
  }

  lemma {:induction false} InsertRowPermutes(byDisplay: bool, r: MenuRow, s: seq<MenuRow>)
    ensures multiset(InsertRow(byDisplay, r, s)) == multiset(s) + multiset{r}
    decreases |s|
  {
    if |s| > 0 && !RowLeq(byDisplay, r, s[0]) {
      InsertRowPermutes(byDisplay, r, s[1..]);
      assert s == [s[0]] + s[1..];
    }
  }

  /** A row at or below `r` and every row of `s` stays at or below every row of the
      insertion. */
  lemma InsertRowKeepsLowerBound(byDisplay: bool, x: MenuRow, r: MenuRow, s: seq<MenuRow>)
    requires RowLeq(byDisplay, x, r)
    requires forall k :: 0 <= k < |s| ==> RowLeq(byDisplay, x, s[k])
    ensures forall k :: 0 <= k < |InsertRow(byDisplay, r, s)| ==> RowLeq(byDisplay, x, InsertRow(byDisplay, r, s)[k])
  {
    var t := InsertRow(byDisplay, r, s);
    InsertRowPermutes(byDisplay, r, s);
    forall k | 0 <= k < |t| ensures RowLeq(byDisplay, x, t[k]) {
      assert t[k] in multiset(t);
      if t[k] != r {
        assert t[k] in multiset(s);
        var j :| 0 <= j < |s| && s[j] == t[k];
      }
    }
  }

  lemma {:induction false} InsertRowSorted(byDisplay: bool, r: MenuRow, s: seq<MenuRow>)
    requires Sorted(byDisplay, s)
    ensures Sorted(byDisplay, InsertRow(byDisplay, r, s))
    decreases |s|
  {
    if |s| == 0 {
    } else if RowLeq(byDisplay, r, s[0]) {
      var t := [r] + s;
      forall i, j | 0 <= i < j < |t| ensures RowLeq(byDisplay, t[i], t[j]) {
        if i == 0 && j > 1 {
          RowLeqTransitive(byDisplay, r, s[0], s[j - 1]);
        }
      }
    } else {
      RowLeqTotal(byDisplay, r, s[0]);
      var rest := InsertRow(byDisplay, r, s[1..]);
      InsertRowSorted(byDisplay, r, s[1..]);
      InsertRowKeepsLowerBound(byDisplay, s[0], r, s[1..]);
      var t := [s[0]] + rest;
      forall i, j | 0 <= i < j < |t| ensures RowLeq(byDisplay, t[i], t[j]) {
        if i > 0 {
          assert t[i] == rest[i - 1] && t[j] == rest[j - 1];
        }
      }
    }
  }

  /** The sort puts the rows in the listing order and keeps every row, as often as it
      occurs. */
  lemma {:induction false} SortRowsCorrect(byDisplay: bool, rows: seq<MenuRow>)
    ensures Sorted(byDisplay, SortRows(byDisplay, rows))
    ensures multiset(SortRows(byDisplay, rows)) == multiset(rows)
    decreases |rows|
  {
    if |rows| > 0 {
      SortRowsCorrect(byDisplay, rows[1..]);
      InsertRowSorted(byDisplay, rows[0], SortRows(byDisplay, rows[1..]));
      InsertRowPermutes(byDisplay, rows[0], SortRows(byDisplay, rows[1..]));
      assert rows == [rows[0]] + rows[1..];
    }
  }

  /** The query result: the matching rows in the listing order. */
  function Select(items: seq<MenuItem>, cats: seq<MenuCategory>, req: MenuRequest): (rows: seq<MenuRow>)
    ensures Sorted(ByDisplayOrder(req), rows)
    ensures multiset(rows) == multiset(Matching(items, cats, req))
  {
    var all := Matching(items, cats, req);
    SortRowsCorrect(ByDisplayOrder(req), all);
    SortRows(ByDisplayOrder(req), all)
  }

  /** Every listed row is an available item that meets the request, shown with its own
      category; every such item with a category row is listed. */
  lemma SelectMembers(items: seq<MenuItem>, cats: seq<MenuCategory>, req: MenuRequest, r: MenuRow)
    ensures r in Select(items, cats, req) <==>
      exists m, c :: m in items && c in cats && c.id == m.categoryId && Where(req, m) && r == Joined(m, c)
  {
    var rows := Select(items, cats, req);
    assert r in rows <==> r in multiset(rows);
    MatchingMembers(items, cats, req, r);
  }

  /** A category name the map does not know lists nothing, whatever the filter. */
  lemma UnknownCategoryListsNothing(items: seq<MenuItem>, cats: seq<MenuCategory>, req: MenuRequest)
    requires Present(req.category) && req.category.value !in KnownCategories
    ensures Select(items, cats, req) == []
  {
    var rows := Select(items, cats, req);
    if |rows| > 0 {
      SelectMembers(items, cats, req, rows[0]);
    }
  }

  /** A category listing puts every popular item before every other one. */
  lemma PopularFirst(items: seq<MenuItem>, cats: seq<MenuCategory>, req: MenuRequest)
    requires Present(req.category)
    ensures var rows := Select(items, cats, req);
            forall i, j :: 0 <= i < j < |rows| && rows[j].item.popular ==> rows[i].item.popular
  {
  }

  /** A listing without a category goes by display order, and within one display order
      puts the popular items first. */
  lemma DisplayOrderFirst(items: seq<MenuItem>, cats: seq<MenuCategory>, req: MenuRequest)
    requires !Present(req.category)
    ensures var rows := Select(items, cats, req);
            forall i, j :: 0 <= i < j < |rows| ==>
              && rows[i].displayOrder <= rows[j].displayOrder
              && (rows[i].displayOrder == rows[j].displayOrder && rows[j].item.popular ==> rows[i].item.popular)
  {
  }

  /** An entry of the response's `items`, with NULL arrays shown as empty and a falsy
      spice level as 0. */
  datatype MenuEntry = MenuEntry(
    id: int,
    name: string,
    description: Option<string>,
    priceCents: int,
    category: string,
    allergens: seq<string>,
    dietaryFlags: seq<string>,
    popular: bool,
    spicyLevel: int)

  function EntryFor(r: MenuRow): (e: MenuEntry)
    ensures r.item.allergens.None? ==> e.allergens == []
    ensures r.item.dietaryFlags.None? ==> e.dietaryFlags == []
    ensures r.item.allergens.Some? ==> e.allergens == r.item.allergens.value
    ensures r.item.dietaryFlags.Some? ==> e.dietaryFlags == r.item.dietaryFlags.value
    ensures e.spicyLevel == 0 <==> !PresentNumber(r.item.spicyLevel)
    ensures PresentNumber(r.item.spicyLevel) ==> e.spicyLevel == r.item.spicyLevel.value
    ensures e.category == r.categoryName && e.id == r.item.id && e.name == r.item.name
    ensures e.priceCents == r.item.priceCents && e.description == r.item.description && e.popular == r.item.popular
  {
    var m := r.item;
    MenuEntry(m.id, m.name, m.description, m.priceCents, r.categoryName,
      if m.allergens.Some? then m.allergens.value else [],
      if m.dietaryFlags.Some? then m.dietaryFlags.value else [],
      m.popular,
      if PresentNumber(m.spicyLevel) then m.spicyLevel.value else 0)
  }

  /** The 200 body. */
  datatype MenuResponse = MenuResponse(category: string, dietaryFilter: Option<string>, count: int, items: seq<MenuEntry>)

  function ResponseFor(req: MenuRequest, rows: seq<MenuRow>): (resp: MenuResponse)
    ensures resp.count == |resp.items| == |rows|
    ensures forall i :: 0 <= i < |rows| ==> resp.items[i] == EntryFor(rows[i])
    ensures resp.dietaryFilter.Some? <==> Present(req.dietaryFilter)
    ensures Present(req.dietaryFilter) ==> resp.dietaryFilter == req.dietaryFilter
    ensures resp.category == if Present(req.category) then req.category.value else "all"
  {
    MenuResponse(OrElse(req.category, "all"), OrNull(req.dietaryFilter), |rows|,
      seq(|rows|, i requires 0 <= i < |rows| => EntryFor(rows[i])))
  }

  datatype MenuReply = Menu(body: MenuResponse) | MenuUnavailable(message: string)

  /** The handler. `fault` names the statement that throws, if any. */
  method GetMenu(db: Database, kv: KvStore<MenuResponse>, req: MenuRequest, fault: CacheAsideFault)
    returns (reply: MenuReply)
    modifies kv
    ensures fault == CacheReadFails ==> reply == MenuUnavailable(UnavailableMessage) && kv.entries == old(kv.entries)
    ensures fault != CacheReadFails ==>
      var key := CacheKey(req);
      var computed := ResponseFor(req, Select(db.menuItems, db.categories, req));
      && (key in old(kv.entries) ==> reply == Menu(old(kv.entries)[key].value) && kv.entries == old(kv.entries))
      && (key !in old(kv.entries) && fault == NoFault ==>
            reply == Menu(computed) && kv.entries == old(kv.entries)[key := CacheEntry(computed, CacheTtlSeconds)])
      && (key !in old(kv.entries) && fault != NoFault ==>
            reply == MenuUnavailable(UnavailableMessage) && kv.entries == old(kv.entries))
  {
    if fault == CacheReadFails {
      return MenuUnavailable(UnavailableMessage);
    }
    var key := CacheKey(req);
    var cached := kv.Get(key);
    if cached.Some? {
      return Menu(cached.value);
    }
    if fault == QueryFails {
      return MenuUnavailable(UnavailableMessage);
    }
    var response := ResponseFor(req, Select(db.menuItems, db.categories, req));
    if fault == CacheWriteFails {
      return MenuUnavailable(UnavailableMessage);
    }
    kv.Set(key, response, CacheTtlSeconds);
    reply := Menu(response);
  }

  /** The category "all" shares its cache entry with the request that gives no category,
      yet lists nothing; the filter "none" likewise shares the entry of no filter. */
  lemma ReservedWordsShareCacheEntries(items: seq<MenuItem>, cats: seq<MenuCategory>, filter: Option<string>, category: Option<string>)
    ensures CacheKey(MenuRequest(Some("all"), filter)) == CacheKey(MenuRequest(None, filter))
    ensures Select(items, cats, MenuRequest(Some("all"), filter)) == []
    ensures CacheKey(MenuRequest(category, Some("none"))) == CacheKey(MenuRequest(category, None))
  {
    UnknownCategoryListsNothing(items, cats, MenuRequest(Some("all"), filter));
  }

  /** On a cold cache, one request for category "all" leaves an empty listing under the
      key of the full menu: the request that follows, with no category, is served that
      empty listing although the menu has an available item with a category. */
  method AllCategoryEmptiesFullMenu(db: Database, kv: KvStore<MenuResponse>, m: MenuItem, c: MenuCategory)
    returns (first: MenuReply, second: MenuReply)
    requires kv.entries == map[]
    requires m in db.menuItems && c in db.categories && c.id == m.categoryId && m.available
    modifies kv
    ensures first.Menu? && first.body.count == 0
    ensures second == first
    ensures |Select(db.menuItems, db.categories, MenuRequest(None, None))| > 0
  {
    ReservedWordsShareCacheEntries(db.menuItems, db.categories, None, None);
    first := GetMenu(db, kv, MenuRequest(Some("all"), None), NoFault);
    second := GetMenu(db, kv, MenuRequest(None, None), NoFault);
    SelectMembers(db.menuItems, db.categories, MenuRequest(None, None), Joined(m, c));
  }

  /** The request the cache key stands for: "all" as no category and "none" as no
      filter, exactly the defaults the key writes for absent fields. */
  function Normalize(req: MenuRequest): (n: MenuRequest)
    ensures n.category.Some? <==> Present(req.category) && req.category.value != "all"
    ensures n.dietaryFilter.Some? <==> Present(req.dietaryFilter) && req.dietaryFilter.value != "none"
    ensures n.category.Some? ==> n.category == req.category
    ensures n.dietaryFilter.Some? ==> n.dietaryFilter == req.dietaryFilter
  {
    MenuRequest(
      if Present(req.category) && req.category.value != "all" then req.category else None,
      if Present(req.dietaryFilter) && req.dietaryFilter.value != "none" then req.dietaryFilter else None)
  }

  /** The key's first ':' after the prefix ends the category. */
  predicate ColonFree(req: MenuRequest) {
    req.category.Some? ==> ':' !in req.category.value
  }

  /** Requests whose categories have no ':' share a cache key only when they stand for
      the same normalized request. */
  lemma NormalizedKeyDeterminesRequest(r1: MenuRequest, r2: MenuRequest)
    requires ColonFree(r1) && ColonFree(r2)
    requires CacheKey(r1) == CacheKey(r2)
    ensures Normalize(r1) == Normalize(r2)
  {
    var c1, c2 := OrElse(r1.category, "all"), OrElse(r2.category, "all");
    var f1, f2 := OrElse(r1.dietaryFilter, "none"), OrElse(r2.dietaryFilter, "none");
    var k1, k2 := CacheKey(r1), CacheKey(r2);
    assert k1[|CachePrefix|..] == c1 + ":" + f1;
    assert k2[|CachePrefix|..] == c2 + ":" + f2;
    SplitAtFirstColon(c1, f1, c2, f2);
  }

  /** Every cached listing is the one its key's request computes. */
  ghost predicate Coherent(entries: map<string, CacheEntry<MenuResponse>>, items: seq<MenuItem>, cats: seq<MenuCategory>) {
    forall req :: ColonFree(req) && Normalize(req) == req && CacheKey(req) in entries ==>
      entries[CacheKey(req)].value == ResponseFor(req, Select(items, cats, req))
  }

  /** The handler as evidently intended: the query goes by the normalized request, so
      every answer, cached or not, is the listing for what the key stands for, and the
      cache stays coherent. */
  method GetMenuNormalized(db: Database, kv: KvStore<MenuResponse>, req: MenuRequest, fault: CacheAsideFault)
    returns (reply: MenuReply)
    requires ColonFree(req)
    requires Coherent(kv.entries, db.menuItems, db.categories)
    modifies kv
    ensures Coherent(kv.entries, db.menuItems, db.categories)
    ensures reply.Menu? ==>
      reply.body == ResponseFor(Normalize(req), Select(db.menuItems, db.categories, Normalize(req)))
    ensures fault == NoFault ==> reply.Menu?
  {
    var n := Normalize(req);
    reply := GetMenu(db, kv, n, fault);
    forall r | ColonFree(r) && Normalize(r) == r && CacheKey(r) in kv.entries
      ensures kv.entries[CacheKey(r)].value == ResponseFor(r, Select(db.menuItems, db.categories, r))
    {
      if CacheKey(r) == CacheKey(n) {
        NormalizedKeyDeterminesRequest(r, n);
      }
    }
  }

  /** Menu keys and availability keys never collide, so the two handlers' entries live
      side by side in one cache. */
  lemma CacheNamespacesDisjoint(req: MenuRequest, date: string, time: string, partySize: int)
    ensures CacheKey(req) != Availability.CacheKey(date, time, partySize)
  {
    assert CacheKey(req)[0] == 'm';
    assert Availability.CacheKey(date, time, partySize)[0] == 'a';
  }
}
