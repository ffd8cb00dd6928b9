/** The allergen check: look an available menu item up by name (ignoring case), keep
    the requested allergens that the item lists (ignoring case; order and repeats
    kept), and answer with a `safe` flag and a warning or a reassurance. */
module Allergens {
  import opened Text
  import opened Store

  /** The `allergens` field of the request body. */
  datatype AllergenArg = Missing | NotAList | List(names: seq<string>)

  datatype AllergenRequest = AllergenRequest(itemName: Option<string>, allergens: AllergenArg)

  /** The 200 response body. */
  datatype AllergenReport = AllergenReport(
    itemName: string,
    category: string,
    description: Option<string>,
    allergensChecked: seq<string>,
    itemAllergens: seq<string>,
    foundAllergens: seq<string>,
    hasAllergens: bool,
    dietaryFlags: seq<string>,
    safe: bool,
    message: string)

  datatype AllergenReply =
    | InvalidParameters                              // 400
    | ItemNotFound(itemName: string, message: string) // 404
    | Checked(report: AllergenReport)                // 200
    | CheckFailed                                    // 500, "please call us directly"

  /** `item_name` truthy and `allergens` an array. */
  predicate ValidRequest(req: AllergenRequest) {
    Present(req.itemName) && req.allergens.List?
  }

  /** The first category row with the given id (the join's partner row). */
  function CategoryById(cats: seq<MenuCategory>, id: int): (r: Option<MenuCategory>)
    ensures r.Some? ==> r.value in cats && r.value.id == id
    ensures r.None? ==> forall c :: c in cats ==> c.id != id
    decreases |cats|
  {
    if |cats| == 0 then None
    else if cats[0].id == id then Some(cats[0])
    else CategoryById(cats[1..], id)
  }

  /** `FROM menu_items mi JOIN menu_categories mc ON mi.category_id = mc.id
      WHERE LOWER(mi.name) = LOWER(x) AND mi.available = true LIMIT 1`: an item without
      a category row is not found. */
  function FindWithCategory(items: seq<MenuItem>, cats: seq<MenuCategory>, name: string)
    : (r: Option<(MenuItem, MenuCategory)>)
    ensures r.Some? ==> r.value.0 in items && NameMatches(r.value.0, name)
    ensures r.Some? ==> r.value.1 in cats && r.value.1.id == r.value.0.categoryId
    ensures r.None? ==> forall m, c :: m in items && c in cats && NameMatches(m, name) ==> c.id != m.categoryId
    decreases |items|
  {
    if |items| == 0 then None
    else if NameMatches(items[0], name) && CategoryById(cats, items[0].categoryId).Some?
    then Some((items[0], CategoryById(cats, items[0].categoryId).value))
    else FindWithCategory(items[1..], cats, name)
  }

  /** `itemAllergens.some(x => x.toLowerCase() === a.toLowerCase())`. */
  predicate MatchesAny(a: string, itemAllergens: seq<string>) {
    exists i :: 0 <= i < |itemAllergens| && EqualsIgnoreCase(itemAllergens[i], a)
  }

  /** `allergens.filter(a => MatchesAny(a, itemAllergens))`. */
  function Found(requested: seq<string>, itemAllergens: seq<string>): (found: seq<string>)
    ensures |found| <= |requested|
    ensures forall i :: 0 <= i < |found| ==> MatchesAny(found[i], itemAllergens)
    decreases |requested|
  {
    if |requested| == 0 then []
    else
      var head := if MatchesAny(requested[0], itemAllergens) then [requested[0]] else [];
      head + Found(requested[1..], itemAllergens)
  }

  /** `found_allergens` is a subsequence of the requested list, and it holds each
      requested allergen exactly as often as the request does when the item lists it
      (ignoring case) and not at all otherwise. */
  lemma {:induction false} FoundIsFilter(requested: seq<string>, itemAllergens: seq<string>)
    ensures IsSubsequence(Found(requested, itemAllergens), requested)
    ensures forall a :: multiset(Found(requested, itemAllergens))[a]
                     == if MatchesAny(a, itemAllergens) then multiset(requested)[a] else 0
    decreases |requested|
  {
    if |requested| > 0 {
      var a0, rest := requested[0], requested[1..];
      assert requested == [a0] + rest;
      FoundIsFilter(rest, itemAllergens);
      var f := Found(rest, itemAllergens);
      if MatchesAny(a0, itemAllergens) {
        var full := [a0] + f;
        assert full[1..] == f;
        assert IsSubsequence(full, requested);
      } else {
        assert Found(requested, itemAllergens) == f;
        SubsequenceSkip(f, a0, rest);
      }
    }
  }

  /** Each found allergen is one the item lists; each requested one that was not found
      matches no item allergen. */
  lemma FoundExactlyTheMatches(requested: seq<string>, itemAllergens: seq<string>)
    ensures forall a :: a in Found(requested, itemAllergens) ==> a in requested && MatchesAny(a, itemAllergens)
    ensures forall a :: a in requested && a !in Found(requested, itemAllergens) ==> !MatchesAny(a, itemAllergens)
  {
    FoundIsFilter(requested, itemAllergens);
    var f := Found(requested, itemAllergens);
    forall a | a in f ensures a in requested && MatchesAny(a, itemAllergens) {
      assert multiset(f)[a] > 0;
    }
    forall a | a in requested && a !in f ensures !MatchesAny(a, itemAllergens) {
      assert multiset(requested)[a] > 0;
    }
  }

  /** The sentence for an item that contains some of the requested allergens. */
  function WarningMessage(name: string, found: seq<string>): string {
    "Warning: \"" + name + "\" contains " + Join(found, ", ") + ". "
      + "Would you like me to suggest alternative items without these allergens?"
  }

  /** The sentence for an item that contains none of them. */
  function Reassurance(name: string, requested: seq<string>): string {
    "Good news! \"" + name + "\" does not contain " + Join(requested, ", ") + ". "
  }

  /** The reassurance goes on to name the item's own allergens, when it has any. */
  function HoweverClause(itemAllergens: seq<string>): string {
    if |itemAllergens| > 0 then "However, it does contain: " + Join(itemAllergens, ", ") + "." else ""
  }

  /** A warning naming what was found, or else a reassurance naming everything that was
      asked about, followed by the item's own allergens when it has any. */
  function Message(name: string, requested: seq<string>, found: seq<string>, itemAllergens: seq<string>): (m: string)
    ensures |found| > 0 ==> m == WarningMessage(name, found)
    ensures |found| == 0 ==> StartsWith(m, Reassurance(name, requested))
    ensures |found| == 0 && |itemAllergens| == 0 ==> m == Reassurance(name, requested)
  {
    if |found| > 0 then WarningMessage(name, found)
    else Reassurance(name, requested) + HoweverClause(itemAllergens)
  }

  /** The message opens with "Warning" exactly when something was found. */
  lemma WarningIffFound(name: string, requested: seq<string>, found: seq<string>, itemAllergens: seq<string>)
    ensures StartsWith(Message(name, requested, found, itemAllergens), "Warning") <==> |found| > 0
    ensures |found| > 0 ==> Message(name, requested, found, itemAllergens) == WarningMessage(name, found)
  {
    var msg := Message(name, requested, found, itemAllergens);
    if |found| > 0 {
      assert msg[..7] == "Warning";
    } else {
      assert msg[0] == 'G';
    }
  }

  /** A reassurance continues with "However, it does contain" exactly when the item has
      allergens of its own. */
  lemma HoweverIffItemHasAllergens(name: string, requested: seq<string>, itemAllergens: seq<string>)
    ensures StartsWith(Message(name, requested, [], itemAllergens), Reassurance(name, requested))
    ensures var rest := Message(name, requested, [], itemAllergens)[|Reassurance(name, requested)|..];
            StartsWith(rest, "However, it does contain") <==> |itemAllergens| > 0
  {
    var base := Reassurance(name, requested);
    var msg := Message(name, requested, [], itemAllergens);
    assert msg[..|base|] == base;
    assert msg[|base|..] == HoweverClause(itemAllergens);
    if |itemAllergens| > 0 {
      assert HoweverClause(itemAllergens)[..24] == "However, it does contain";
    }
  }

  /** The handler. `queryFails` says whether the store query throws. */
  function CheckAllergens(items: seq<MenuItem>, cats: seq<MenuCategory>, req: AllergenRequest, queryFails: bool)
    : (r: AllergenReply)
    ensures r == InvalidParameters <==> !ValidRequest(req)
    ensures ValidRequest(req) && queryFails ==> r == CheckFailed
    ensures ValidRequest(req) && !queryFails ==>
      (r.ItemNotFound? <==> forall m, c :: m in items && c in cats && NameMatches(m, req.itemName.value) ==> c.id != m.categoryId)
    ensures r.ItemNotFound? ==> r.itemName == req.itemName.value
    ensures r.Checked? ==> ValidRequest(req) && !queryFails
    ensures r.Checked? ==> exists m :: m in items && NameMatches(m, req.itemName.value) && r.report.itemName == m.name
    ensures r.Checked? ==> r.report.allergensChecked == req.allergens.names
    ensures r.Checked? ==> r.report.foundAllergens == Found(req.allergens.names, r.report.itemAllergens)
    ensures r.Checked? ==> r.report.safe == !r.report.hasAllergens
    ensures r.Checked? ==> (r.report.hasAllergens <==> |r.report.foundAllergens| > 0)
    ensures r.Checked? ==>
              r.report.message == Message(r.report.itemName, req.allergens.names, r.report.foundAllergens, r.report.itemAllergens)
  {
    if !ValidRequest(req) then InvalidParameters
    else if queryFails then CheckFailed
    else
      var name := req.itemName.value;
      var requested := req.allergens.names;
      match FindWithCategory(items, cats, name)
      case None =>
        ItemNotFound(name, "Sorry, I couldn't find \"" + name + "\" on our menu. Could you try a different item?")
      case Some((item, category)) =>
        var itemAllergens := if item.allergens.Some? then item.allergens.value else [];
        var found := Found(requested, itemAllergens);
        var has := |found| > 0;
        Checked(AllergenReport(
          item.name,
          category.name,
          item.description,
          requested,
          itemAllergens,
          found,
          has,
          if item.dietaryFlags.Some? then item.dietaryFlags.value else [],
          !has,
          Message(item.name, requested, found, itemAllergens)))
  }

  /** `item_allergens` is the item's own list, or empty when the column is NULL, whether
      or not anything matched. */
  lemma ItemAllergensReported(items: seq<MenuItem>, cats: seq<MenuCategory>, req: AllergenRequest)
    requires ValidRequest(req)
    requires FindWithCategory(items, cats, req.itemName.value).Some?
    ensures var item := FindWithCategory(items, cats, req.itemName.value).value.0;
            var r := CheckAllergens(items, cats, req, false);
            r.Checked? && r.report.itemAllergens == (if item.allergens.Some? then item.allergens.value else [])
  {
  }
}
