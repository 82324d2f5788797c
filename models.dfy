/** The value types of the app: search parameters and their serialisation to URL
    query items, wallpapers returned by the gallery API, imported local
    wallpapers and the persisted settings record. */
module WallpaperModels {
  import opened Wrappers
  import opened Text

  // ---------------------------------------------------------------------------
  // Search parameters

  /** `WallhavenSearchParams.Sorting` and its raw values. */
  datatype Sorting = DateAdded | Relevance | Random | Views | Favorites | Toplist | Hot

  function SortingRaw(s: Sorting): string {
    match s
    case DateAdded => "date_added"
    case Relevance => "relevance"
    case Random => "random"
    case Views => "views"
    case Favorites => "favorites"
    case Toplist => "toplist"
    case Hot => "hot"
  }

  /** Swift's synthesised `Sorting(rawValue:)`. */
  function SortingFromRaw(raw: string): Option<Sorting> {
    if raw == "date_added" then Some(DateAdded)
    else if raw == "relevance" then Some(Relevance)
    else if raw == "random" then Some(Random)
    else if raw == "views" then Some(Views)
    else if raw == "favorites" then Some(Favorites)
    else if raw == "toplist" then Some(Toplist)
    else if raw == "hot" then Some(Hot)
    else None
  }

  datatype Order = Desc | Asc

  function OrderRaw(o: Order): string {
    match o
    case Desc => "desc"
    case Asc => "asc"
  }

  function OrderFromRaw(raw: string): Option<Order> {
    if raw == "desc" then Some(Desc) else if raw == "asc" then Some(Asc) else None
  }

  datatype TopRange = OneDay | ThreeDays | OneWeek | OneMonth | ThreeMonths | SixMonths | OneYear

  function TopRangeRaw(t: TopRange): string {
    match t
    case OneDay => "1d"
    case ThreeDays => "3d"
    case OneWeek => "1w"
    case OneMonth => "1M"
    case ThreeMonths => "3M"
    case SixMonths => "6M"
    case OneYear => "1y"
  }

  function TopRangeFromRaw(raw: string): Option<TopRange> {
    if raw == "1d" then Some(OneDay)
    else if raw == "3d" then Some(ThreeDays)
    else if raw == "1w" then Some(OneWeek)
    else if raw == "1M" then Some(OneMonth)
    else if raw == "3M" then Some(ThreeMonths)
    else if raw == "6M" then Some(SixMonths)
    else if raw == "1y" then Some(OneYear)
    else None
  }

  /** Every case of the three enums is recovered from its raw value, so the raw
      values are pairwise distinct. */
  lemma RawValuesRoundTrip(s: Sorting, o: Order, t: TopRange)
    ensures SortingFromRaw(SortingRaw(s)) == Some(s)
    ensures OrderFromRaw(OrderRaw(o)) == Some(o)
    ensures TopRangeFromRaw(TopRangeRaw(t)) == Some(t)
  {
  }

  /** `WallhavenSearchParams`; Swift's `Int` page is an unbounded `int` here. */
  datatype SearchParams = SearchParams(
    query: string,
    categories: string,
    purity: string,
    sorting: Sorting,
    order: Order,
    topRange: TopRange,
    atleast: Option<string>,
    resolutions: Option<seq<string>>,
    ratios: Option<seq<string>>,
    colors: Option<string>,
    page: int,
    seed: Option<string>,
    apiKey: Option<string>)

  /** The memberwise defaults of `WallhavenSearchParams()`. */
  const DefaultParams: SearchParams :=
    SearchParams("", "111", "100", DateAdded, Desc, OneMonth, None, None, None, None, 1, None, None)

  /** `URLQueryItem(name:value:)`; the core never builds an item without a value. */
  datatype QueryItem = QueryItem(name: string, value: string)

  /** The thirteen query parameters the serialiser knows, in emission order. */
  datatype ParamKey =
    | QueryKey | CategoriesKey | PurityKey | SortingKey | OrderKey | TopRangeKey
    | AtleastKey | ResolutionsKey | RatiosKey | ColorsKey | PageKey | SeedKey | ApiKeyKey

  function KeyName(k: ParamKey): string {
    match k
    case QueryKey => "q"
    case CategoriesKey => "categories"
    case PurityKey => "purity"
    case SortingKey => "sorting"
    case OrderKey => "order"
    case TopRangeKey => "topRange"
    case AtleastKey => "atleast"
    case ResolutionsKey => "resolutions"
    case RatiosKey => "ratios"
    case ColorsKey => "colors"
    case PageKey => "page"
    case SeedKey => "seed"
    case ApiKeyKey => "apikey"
  }

  const KeyCount := 13

  /** Position of each parameter in the fixed emission order. */
  function KeyIndex(k: ParamKey): (i: nat)
    ensures i < KeyCount
  {
    match k
    case QueryKey => 0
    case CategoriesKey => 1
    case PurityKey => 2
    case SortingKey => 3
    case OrderKey => 4
    case TopRangeKey => 5
    case AtleastKey => 6
    case ResolutionsKey => 7
    case RatiosKey => 8
    case ColorsKey => 9
    case PageKey => 10
    case SeedKey => 11
    case ApiKeyKey => 12
  }

  function KeyFromName(name: string): Option<ParamKey> {
    if name == "q" then Some(QueryKey)
    else if name == "categories" then Some(CategoriesKey)
    else if name == "purity" then Some(PurityKey)
    else if name == "sorting" then Some(SortingKey)
    else if name == "order" then Some(OrderKey)
    else if name == "topRange" then Some(TopRangeKey)
    else if name == "atleast" then Some(AtleastKey)
    else if name == "resolutions" then Some(ResolutionsKey)
    else if name == "ratios" then Some(RatiosKey)
    else if name == "colors" then Some(ColorsKey)
    else if name == "page" then Some(PageKey)
    else if name == "seed" then Some(SeedKey)
    else if name == "apikey" then Some(ApiKeyKey)
    else None
  }

  /** Parameter names are distinct: each names exactly one parameter. */
  lemma KeyNameRoundTrip(k: ParamKey)
    ensures KeyFromName(KeyName(k)) == Some(k)
  {
  }

  /** The parameter at position `i` of the fixed emission order. */
  function KeyAt(i: nat): ParamKey
    requires i < KeyCount
  {
    if i == 0 then QueryKey
    else if i == 1 then CategoriesKey
    else if i == 2 then PurityKey
    else if i == 3 then SortingKey
    else if i == 4 then OrderKey
    else if i == 5 then TopRangeKey
    else if i == 6 then AtleastKey
    else if i == 7 then ResolutionsKey
    else if i == 8 then RatiosKey
    else if i == 9 then ColorsKey
    else if i == 10 then PageKey
    else if i == 11 then SeedKey
    else ApiKeyKey
  }

  /** An optional list filter: absent when nil or empty, else comma-joined. */
  function ListValue(xs: Option<seq<string>>): Option<string> {
    if xs.Some? && xs.value != [] then Some(Join(xs.value, ',')) else None
  }

  /** The value each parameter is sent with, or `None` when it is left out of the URL. */
  function Expected(p: SearchParams, k: ParamKey): Option<string> {
    match k
    case QueryKey => if p.query != "" then Some(p.query) else None
    case CategoriesKey => Some(p.categories)
    case PurityKey => Some(p.purity)
    case SortingKey => Some(SortingRaw(p.sorting))
    case OrderKey => Some(OrderRaw(p.order))
    case TopRangeKey => if p.sorting == Toplist then Some(TopRangeRaw(p.topRange)) else None
    case AtleastKey => p.atleast
    case ResolutionsKey => ListValue(p.resolutions)
    case RatiosKey => ListValue(p.ratios)
    case ColorsKey => p.colors
    case PageKey => Some(IntToDecimal(p.page))
    case SeedKey => p.seed
    case ApiKeyKey => p.apiKey
  }

  /** The rendered parameter table: entry `i` is what the parameter at position
      `i` of the emission order is sent with, or `None` when it is left out. */
  function Rendered(p: SearchParams): (t: seq<Option<string>>)
    ensures |t| == KeyCount
  {
    seq(KeyCount, i requires 0 <= i < KeyCount => Expected(p, KeyAt(i)))
  }

  /** The item of position `i` of a table, or nothing when it is left out. */
  function ItemAt(t: seq<Option<string>>, i: nat): seq<QueryItem>
    requires |t| == KeyCount && i < KeyCount
  {
    match t[i]
    case Some(v) => [QueryItem(KeyName(KeyAt(i)), v)]
    case None => []
  }

  /** The items of the first `n` positions of a table, in order. */
  function SerializeUpTo(t: seq<Option<string>>, n: nat): seq<QueryItem>
    requires |t| == KeyCount && n <= KeyCount
  {
    if n == 0 then [] else SerializeUpTo(t, n - 1) + ItemAt(t, n - 1)
  }

  /** Reference meaning of `toQueryItems`: the fixed emission order, filtered
      to the parameters that are present, each with its value. */
  function QueryItems(p: SearchParams): seq<QueryItem> {
    SerializeUpTo(Rendered(p), KeyCount)
  }

  /** The item for an optional value: one item when it is set, none otherwise. */
  function Chunk(name: string, value: Option<string>): (c: seq<QueryItem>)
    ensures |c| == Flag(value.Some?)
  {
    match value
    case Some(v) => [QueryItem(name, v)]
    case None => []
  }

  /** `if let value { items.append(URLQueryItem(name: name, value: value)) }`. */
  method AppendIfSet(items: seq<QueryItem>, name: string, value: Option<string>) returns (r: seq<QueryItem>)
    ensures r == items + Chunk(name, value)
  {
    r := items;
    if value.Some? {
      r := r + [QueryItem(name, value.value)];
    }
  }

  /** One more position of a table appends that position's item. */
  lemma SerializeNext(t: seq<Option<string>>, n: nat)
    requires |t| == KeyCount && n < KeyCount
    ensures SerializeUpTo(t, n + 1) == SerializeUpTo(t, n) + Chunk(KeyName(KeyAt(n)), t[n])
  {
  }

  /** One more position of a parameter record's table appends the item that
      parameter expects. */
  lemma RenderedNext(p: SearchParams, n: nat)
    requires n < KeyCount
    ensures SerializeUpTo(Rendered(p), n + 1) == SerializeUpTo(Rendered(p), n) + Chunk(KeyName(KeyAt(n)), Expected(p, KeyAt(n)))
  {
    SerializeNext(Rendered(p), n);
  }

  /** The first position: the query, sent only when non-empty. */
  lemma QueryItemsQuery(p: SearchParams)
    ensures SerializeUpTo(Rendered(p), 1) == [] + Chunk("q", if p.query != "" then Some(p.query) else None)
  {
    RenderedNext(p, 0);
  }

  /** The next four positions: the mandatory parameters. */
  lemma QueryItemsHead(p: SearchParams)
    ensures SerializeUpTo(Rendered(p), 5) ==
      SerializeUpTo(Rendered(p), 1)
      + [QueryItem("categories", p.categories)] + [QueryItem("purity", p.purity)]
      + [QueryItem("sorting", SortingRaw(p.sorting))] + [QueryItem("order", OrderRaw(p.order))]
  {
    RenderedNext(p, 1);
    RenderedNext(p, 2);
    RenderedNext(p, 3);
    RenderedNext(p, 4);
  }

  lemma QueryItemsMiddle(p: SearchParams)
    ensures SerializeUpTo(Rendered(p), 8) ==
      SerializeUpTo(Rendered(p), 5)
      + Chunk("topRange", if p.sorting == Toplist then Some(TopRangeRaw(p.topRange)) else None)
      + Chunk("atleast", p.atleast) + Chunk("resolutions", ListValue(p.resolutions))
  {
    RenderedNext(p, 5);
    RenderedNext(p, 6);
    RenderedNext(p, 7);
  }

  lemma QueryItemsFilters(p: SearchParams)
    ensures SerializeUpTo(Rendered(p), 10) ==
      SerializeUpTo(Rendered(p), 8) + Chunk("ratios", ListValue(p.ratios)) + Chunk("colors", p.colors)
  {
    RenderedNext(p, 8);
    RenderedNext(p, 9);
  }

  lemma QueryItemsPage(p: SearchParams)
    ensures SerializeUpTo(Rendered(p), 11) ==
      SerializeUpTo(Rendered(p), 10) + [QueryItem("page", IntToDecimal(p.page))]
  {
    RenderedNext(p, 10);
  }

  lemma QueryItemsTail(p: SearchParams)
    ensures QueryItems(p) == SerializeUpTo(Rendered(p), 11) + Chunk("seed", p.seed) + Chunk("apikey", p.apiKey)
  {
    RenderedNext(p, 11);
    RenderedNext(p, 12);
  }

  /** `toQueryItems`, appending to a local array one parameter at a time. */
  method ToQueryItems(p: SearchParams) returns (items: seq<QueryItem>)
    ensures items == QueryItems(p)
  {
    items := [];
    items := AppendIfSet(items, "q", if p.query != "" then Some(p.query) else None);
    items := items + [QueryItem("categories", p.categories)];
    items := items + [QueryItem("purity", p.purity)];
    items := items + [QueryItem("sorting", SortingRaw(p.sorting))];
    items := items + [QueryItem("order", OrderRaw(p.order))];
    items := AppendIfSet(items, "topRange", if p.sorting == Toplist then Some(TopRangeRaw(p.topRange)) else None);
    items := AppendIfSet(items, "atleast", p.atleast);
    items := AppendIfSet(items, "resolutions", ListValue(p.resolutions));
    items := AppendIfSet(items, "ratios", ListValue(p.ratios));
    items := AppendIfSet(items, "colors", p.colors);
    items := items + [QueryItem("page", IntToDecimal(p.page))];
    items := AppendIfSet(items, "seed", p.seed);
    items := AppendIfSet(items, "apikey", p.apiKey);
    QueryItemsQuery(p);
    QueryItemsHead(p);
    QueryItemsMiddle(p);
    QueryItemsFilters(p);
    QueryItemsPage(p);
    QueryItemsTail(p);
  }

  // ---------------------------------------------------------------------------
  // What the query items say

  /** The value of the first item called `name`, as `URLComponents` reads it. */
  function Lookup(items: seq<QueryItem>, name: string): Option<string> {
    if items == [] then None
    else if items[0].name == name then Some(items[0].value)
    else Lookup(items[1..], name)
  }

  /** `Lookup` finds a value exactly when some item carries the name, and then
      the value of the first such item. */
  lemma {:induction false} LookupFinds(items: seq<QueryItem>, name: string)
    ensures Lookup(items, name).Some? <==> exists i :: 0 <= i < |items| && items[i].name == name
    ensures Lookup(items, name).Some? ==>
      exists i :: 0 <= i < |items| && items[i] == QueryItem(name, Lookup(items, name).value) &&
        (forall j :: 0 <= j < i ==> items[j].name != name)
  {
    if items != [] && items[0].name != name {
      LookupFinds(items[1..], name);
      assert forall i :: 1 <= i < |items| ==> items[i] == items[1..][i - 1];
      if Lookup(items, name).Some? {
        var i :| 0 <= i < |items[1..]| && items[1..][i] == QueryItem(name, Lookup(items, name).value)
          && forall j :: 0 <= j < i ==> items[1..][j].name != name;
        assert items[i + 1] == items[1..][i];
      }
    }
  }

  lemma {:induction false} LookupAppend(a: seq<QueryItem>, b: seq<QueryItem>, name: string)
    ensures Lookup(a + b, name) == if Lookup(a, name).Some? then Lookup(a, name) else Lookup(b, name)
    decreases |a|
  {
    if a != [] {
      var ab := a + b;
      assert ab[0] == a[0];
      assert ab[1..] == a[1..] + b;
      if a[0].name != name {
        assert Lookup(ab, name) == Lookup(ab[1..], name);
        LookupAppend(a[1..], b, name);
      }
    } else {
      assert a + b == b;
    }
  }

  /** `KeyIndex` and `KeyAt` are inverse to each other. */
  lemma IndexKeyAt(k: ParamKey)
    ensures KeyAt(KeyIndex(k)) == k
  {
  }

  lemma KeyAtIndex(i: nat)
    requires i < KeyCount
    ensures KeyIndex(KeyAt(i)) == i
  {
  }

  /** Distinct positions carry distinct parameter names. */
  lemma NamesDistinct(i: nat, j: nat)
    requires i < KeyCount && j < KeyCount && i != j
    ensures KeyName(KeyAt(i)) != KeyName(KeyAt(j))
  {
    KeyNameRoundTrip(KeyAt(i));
    KeyNameRoundTrip(KeyAt(j));
    KeyAtIndex(i);
    KeyAtIndex(j);
  }

  lemma {:induction false} SerializeUpToLookup(t: seq<Option<string>>, n: nat, i: nat)
    requires |t| == KeyCount && n <= KeyCount && i < KeyCount
    ensures Lookup(SerializeUpTo(t, n), KeyName(KeyAt(i))) == if i < n then t[i] else None
  {
    if n > 0 {
      var name := KeyName(KeyAt(i));
      SerializeUpToLookup(t, n - 1, i);
      LookupItemAt(t, n - 1, name);
      if i == n - 1 {
        LookupAfterMissing(SerializeUpTo(t, n - 1), ItemAt(t, n - 1), name);
      } else {
        NamesDistinct(i, n - 1);
        LookupBeforeMissing(SerializeUpTo(t, n - 1), ItemAt(t, n - 1), name);
      }
    }
  }

  /** A name missing from the front is looked up in the back. */
  lemma LookupAfterMissing(a: seq<QueryItem>, b: seq<QueryItem>, name: string)
    requires Lookup(a, name) == None
    ensures Lookup(a + b, name) == Lookup(b, name)
  {
    LookupAppend(a, b, name);
  }

  /** A name missing from the back is looked up in the front. */
  lemma LookupBeforeMissing(a: seq<QueryItem>, b: seq<QueryItem>, name: string)
    requires Lookup(b, name) == None
    ensures Lookup(a + b, name) == Lookup(a, name)
  {
    LookupAppend(a, b, name);
  }

  /** A position's item answers only to that position's name. */
  lemma LookupItemAt(t: seq<Option<string>>, m: nat, name: string)
    requires |t| == KeyCount && m < KeyCount
    ensures Lookup(ItemAt(t, m), name) == if KeyName(KeyAt(m)) == name then t[m] else None
  {
  }

  /** The positions among the first `n` of a table whose parameter is sent. */
  function Positions(t: seq<Option<string>>, n: nat): (pos: seq<nat>)
    requires |t| == KeyCount && n <= KeyCount
    ensures forall j :: 0 <= j < |pos| ==> pos[j] < n && t[pos[j]].Some?
  {
    if n == 0 then [] else Positions(t, n - 1) + (if t[n - 1].Some? then [n - 1] else [])
  }

  /** The positions are listed in increasing order, and every present one is listed. */
  lemma {:induction false} PositionsOrdered(t: seq<Option<string>>, n: nat)
    requires |t| == KeyCount && n <= KeyCount
    ensures var pos := Positions(t, n);
      && (forall j, j' :: 0 <= j < j' < |pos| ==> pos[j] < pos[j'])
      && (forall i :: 0 <= i < n && t[i].Some? ==> i in pos)
  {
    if n > 0 {
      PositionsOrdered(t, n - 1);
      var pos := Positions(t, n - 1);
      assert Positions(t, n) == pos + (if t[n - 1].Some? then [n - 1] else []);
      forall i | 0 <= i < n && t[i].Some? ensures i in Positions(t, n) {
        if i < n - 1 {
          assert i in pos;
        }
      }
    }
  }

  /** Item `j` of the first `n` positions is the parameter at the `j`-th present position. */
  lemma {:induction false} SerializeUpToItems(t: seq<Option<string>>, n: nat)
    requires |t| == KeyCount && n <= KeyCount
    ensures var items, pos := SerializeUpTo(t, n), Positions(t, n);
      && |items| == |pos|
      && (forall j :: 0 <= j < |pos| ==> items[j] == QueryItem(KeyName(KeyAt(pos[j])), t[pos[j]].value))
  {
    if n > 0 {
      SerializeUpToItems(t, n - 1);
    }
  }

  /** The items are the parameters at the listed positions, each named and
      valued as `Expected` says, in the fixed order q, categories, purity,
      sorting, order, topRange, atleast, resolutions, ratios, colors, page,
      seed, apikey (positions strictly increase). */
  lemma QueryItemsShape(p: SearchParams)
    ensures var items, pos := QueryItems(p), Positions(Rendered(p), KeyCount);
      && |items| == |pos|
      && (forall j :: 0 <= j < |pos| ==>
            pos[j] < KeyCount && Expected(p, KeyAt(pos[j])).Some? &&
            items[j] == QueryItem(KeyName(KeyAt(pos[j])), Expected(p, KeyAt(pos[j])).value))
      && (forall j, j' :: 0 <= j < j' < |pos| ==> pos[j] < pos[j'])
  {
    SerializeUpToItems(Rendered(p), KeyCount);
    PositionsOrdered(Rendered(p), KeyCount);
  }

  /** A parameter's position is listed exactly when the parameter is present. */
  lemma QueryItemsComplete(p: SearchParams, k: ParamKey)
    ensures KeyIndex(k) in Positions(Rendered(p), KeyCount) <==> Expected(p, k).Some?
  {
    PositionsOrdered(Rendered(p), KeyCount);
    IndexKeyAt(k);
    assert Rendered(p)[KeyIndex(k)] == Expected(p, k);
  }

  /** Each parameter is sent, with its value, exactly when it is present:
      `Lookup` of its name yields `Expected` of it. */
  lemma QueryItemsLookup(p: SearchParams, k: ParamKey)
    ensures Lookup(QueryItems(p), KeyName(k)) == Expected(p, k)
  {
    IndexKeyAt(k);
    SerializeUpToLookup(Rendered(p), KeyCount, KeyIndex(k));
  }

  lemma {:induction false} SerializeUpToFirst(t: seq<Option<string>>, n: nat)
    requires |t| == KeyCount && 0 < n <= KeyCount && t[0].Some?
    ensures |SerializeUpTo(t, n)| > 0 && SerializeUpTo(t, n)[0] == ItemAt(t, 0)[0]
  {
    if n > 1 {
      SerializeUpToFirst(t, n - 1);
    }
  }

  /** A non-empty query is always the first item; an empty one is not sent. */
  lemma QueryFirst(p: SearchParams)
    ensures p.query != "" ==> |QueryItems(p)| > 0 && QueryItems(p)[0] == QueryItem("q", p.query)
    ensures p.query == "" ==> forall j :: 0 <= j < |QueryItems(p)| ==> QueryItems(p)[j].name != "q"
  {
    QueryItemsLookup(p, QueryKey);
    LookupFinds(QueryItems(p), "q");
    if p.query != "" {
      SerializeUpToFirst(Rendered(p), KeyCount);
    }
  }

  function Flag(b: bool): nat { if b then 1 else 0 }

  /** Five items are always sent, plus one per conditional parameter present. */
  lemma QueryItemCount(p: SearchParams)
    ensures |QueryItems(p)| == 5 + Flag(p.query != "") + Flag(p.sorting == Toplist)
      + Flag(p.atleast.Some?) + Flag(ListValue(p.resolutions).Some?) + Flag(ListValue(p.ratios).Some?)
      + Flag(p.colors.Some?) + Flag(p.seed.Some?) + Flag(p.apiKey.Some?)
  {
    QueryItemsQuery(p);
    QueryItemsHead(p);
    QueryItemsMiddle(p);
    QueryItemsFilters(p);
    QueryItemsPage(p);
    QueryItemsTail(p);
  }

  /** With every parameter at its default, only the five mandatory items are
      sent: categories 111, purity 100, sorting date_added, order desc, page 1. */
  lemma DefaultQueryItems()
    ensures |QueryItems(DefaultParams)| == 5
    ensures Lookup(QueryItems(DefaultParams), "categories") == Some("111")
    ensures Lookup(QueryItems(DefaultParams), "purity") == Some("100")
    ensures Lookup(QueryItems(DefaultParams), "sorting") == Some("date_added")
    ensures Lookup(QueryItems(DefaultParams), "order") == Some("desc")
    ensures Lookup(QueryItems(DefaultParams), "page") == Some("1")
  {
    QueryItemCount(DefaultParams);
    QueryItemsAlwaysSent(DefaultParams);
    assert IntToDecimal(1) == "1";
  }

  /** A list filter, once sent, splits back into the list it was built from,
      as long as no entry contains a comma. */
  lemma ListValueRoundTrip(xs: Option<seq<string>>)
    requires xs.Some? ==> forall k :: 0 <= k < |xs.value| ==> ',' !in xs.value[k]
    ensures ListValue(xs).Some? <==> xs.Some? && xs.value != []
    ensures ListValue(xs).Some? ==> SplitAll(ListValue(xs).value, ',') == xs.value
  {
    if xs.Some? && xs.value != [] {
      SplitJoin(xs.value, ',');
    }
  }

  /** Without that condition the joined value loses the list: an entry
      holding a comma is sent the same as two entries. */
  lemma ListValueCollision()
    ensures ListValue(Some(["a,b"])) == ListValue(Some(["a", "b"])) == Some("a,b")
  {
    var two := ["a", "b"];
    assert two[..|two| - 1] == ["a"];
    assert Join(two, ',') == "a" + [','] + "b" == "a,b";
  }

  /** categories, purity, sorting, order and page are always sent, with their values. */
  lemma QueryItemsAlwaysSent(p: SearchParams)
    ensures Lookup(QueryItems(p), "categories") == Some(p.categories)
    ensures Lookup(QueryItems(p), "purity") == Some(p.purity)
    ensures Lookup(QueryItems(p), "sorting") == Some(SortingRaw(p.sorting))
    ensures Lookup(QueryItems(p), "order") == Some(OrderRaw(p.order))
    ensures Lookup(QueryItems(p), "page") == Some(IntToDecimal(p.page))
  {
    QueryItemsLookup(p, CategoriesKey);
    QueryItemsLookup(p, PurityKey);
    QueryItemsLookup(p, SortingKey);
    QueryItemsLookup(p, OrderKey);
    QueryItemsLookup(p, PageKey);
  }

  /** topRange is sent exactly for toplist searches; the list filters exactly
      when non-empty, comma-joined; atleast, colors, seed and apikey exactly
      when set, with their values unchanged. */
  lemma QueryItemsWhenSet(p: SearchParams)
    ensures Lookup(QueryItems(p), "topRange") == if p.sorting == Toplist then Some(TopRangeRaw(p.topRange)) else None
    ensures Lookup(QueryItems(p), "atleast") == p.atleast
    ensures Lookup(QueryItems(p), "resolutions") == ListValue(p.resolutions)
    ensures Lookup(QueryItems(p), "ratios") == ListValue(p.ratios)
    ensures Lookup(QueryItems(p), "colors") == p.colors
    ensures Lookup(QueryItems(p), "seed") == p.seed
    ensures Lookup(QueryItems(p), "apikey") == p.apiKey
  {
    QueryItemsLookup(p, TopRangeKey);
    QueryItemsLookup(p, AtleastKey);
    QueryItemsLookup(p, ResolutionsKey);
    QueryItemsLookup(p, RatiosKey);
    QueryItemsLookup(p, ColorsKey);
    QueryItemsLookup(p, SeedKey);
    QueryItemsLookup(p, ApiKeyKey);
  }

  // ---------------------------------------------------------------------------
  // Gallery records

  datatype Thumbs = Thumbs(large: string, original: string, small: string)

  /** `WallpaperItem`, one search result. */
  datatype WallpaperItem = WallpaperItem(
    id: string, url: string, shortUrl: string, views: int, favorites: int,
    source: string, purity: string, category: string, dimensionX: int, dimensionY: int,
    resolution: string, ratio: string, fileSize: int, fileType: string, createdAt: string,
    colors: seq<string>, path: string, thumbs: Thumbs)

  datatype SearchMeta = SearchMeta(
    currentPage: int, lastPage: int, perPage: int, total: int,
    query: Option<string>, seed: Option<string>)

  datatype SearchResponse = SearchResponse(data: seq<WallpaperItem>, meta: SearchMeta)

  datatype Uploader = Uploader(username: string, group: string, avatar: map<string, string>)

  datatype WallpaperTag = WallpaperTag(
    id: int, name: string, alias: Option<string>, categoryId: int,
    category: string, purity: string, createdAt: string)

  /** `WallpaperDetail`: a search result plus optional uploader and tags. */
  datatype WallpaperDetail = WallpaperDetail(
    id: string, url: string, shortUrl: string, uploader: Option<Uploader>, views: int,
    favorites: int, source: string, purity: string, category: string, dimensionX: int,
    dimensionY: int, resolution: string, ratio: string, fileSize: int, fileType: string,
    createdAt: string, colors: seq<string>, path: string, thumbs: Thumbs,
    tags: Option<seq<WallpaperTag>>)

  /** The `WallpaperItem` the favorites screen builds from a detail record. */
  function ItemOfDetail(d: WallpaperDetail): WallpaperItem {
    WallpaperItem(d.id, d.url, d.shortUrl, d.views, d.favorites, d.source, d.purity,
      d.category, d.dimensionX, d.dimensionY, d.resolution, d.ratio, d.fileSize,
      d.fileType, d.createdAt, d.colors, d.path, d.thumbs)
  }

  /** The conversion forgets the uploader and the tags and nothing else. */
  lemma ItemOfDetailForgetsOnlyExtras(d1: WallpaperDetail, d2: WallpaperDetail)
    ensures ItemOfDetail(d1) == ItemOfDetail(d2) <==>
      d1.(uploader := None, tags := None) == d2.(uploader := None, tags := None)
  {
  }

  // ---------------------------------------------------------------------------
  // Local wallpapers

  /** `LocalWallpaper`; the import time is a number of the clock's ticks. */
  datatype LocalWallpaper = LocalWallpaper(
    id: string, path: string, name: string, width: int, height: int, fileSize: int, addedAt: int)

  datatype PixelSize = PixelSize(wide: int, high: int)

  /** What `NSImage(contentsOfFile:)` yields: the pixel size of its first
      representation, if any, and its point size truncated to integers. */
  datatype ImageProbe = ImageProbe(firstRepresentation: Option<PixelSize>, size: PixelSize)

  /** `URL(fileURLWithPath:).lastPathComponent`, read as the last non-empty
      "/"-separated piece, or the path itself when it has none. */
  function LastPathComponent(path: string): (name: string)
    ensures (exists i :: 0 <= i < |path| && path[i] != '/') ==>
      name != "" && '/' !in name && Some(name) == LastPiece(path, '/')
    ensures (forall i :: 0 <= i < |path| ==> path[i] == '/') ==> name == path
  {
    LastPieceNoneIff(path, '/');
    LastPiece(path, '/').GetOr(path)
  }

  /** `LocalWallpaper(path:)`, with the UUID, the clock, the decoded image
      (`None` when unreadable) and the file-size attribute passed in. */
  function NewLocalWallpaper(path: string, uuid: string, now: int, image: Option<ImageProbe>, sizeAttribute: Option<int>): (w: LocalWallpaper)
    ensures w.id == uuid && w.path == path && w.addedAt == now
    ensures w.name == LastPathComponent(path)
    ensures image.None? ==> w.width == 0 && w.height == 0
    ensures image.Some? && image.value.firstRepresentation.Some? ==>
      w.width == image.value.firstRepresentation.value.wide && w.height == image.value.firstRepresentation.value.high
    ensures image.Some? && image.value.firstRepresentation.None? ==>
      w.width == image.value.size.wide && w.height == image.value.size.high
    ensures w.fileSize == sizeAttribute.GetOr(0)
  {
    var dims :=
      match image
      case None => PixelSize(0, 0)
      case Some(img) => img.firstRepresentation.GetOr(img.size);
    LocalWallpaper(uuid, path, LastPathComponent(path), dims.wide, dims.high, sizeAttribute.GetOr(0), now)
  }

  /** `resolution`: width and height in decimal, joined by "x". */
  function Resolution(w: LocalWallpaper): string {
    IntToDecimal(w.width) + "x" + IntToDecimal(w.height)
  }

  /** Reads a "<width>x<height>" string back. */
  function ParseResolution(s: string): Option<PixelSize> {
    var pieces := SplitAll(s, 'x');
    if |pieces| == 2 && ParseInt(pieces[0]).Some? && ParseInt(pieces[1]).Some? then
      Some(PixelSize(ParseInt(pieces[0]).value, ParseInt(pieces[1]).value))
    else None
  }

  lemma {:induction false} DecimalHasNoX(n: int)
    ensures 'x' !in IntToDecimal(n)
  {
    var s := IntToDecimal(n);
    var d := NatToDecimal(if n < 0 then -n else n);
    assert forall i :: 0 <= i < |d| ==> d[i] != 'x';
  }

  /** Two pieces free of "x", joined by "x", are read back as those pieces. */
  lemma ParsePair(a: string, b: string)
    requires 'x' !in a && 'x' !in b
    ensures ParseResolution(a + "x" + b) ==
      if ParseInt(a).Some? && ParseInt(b).Some? then Some(PixelSize(ParseInt(a).value, ParseInt(b).value)) else None
  {
    SplitAllNoSep(a, 'x');
    SplitAllAppendPiece(a, b, 'x');
  }

  /** The resolution string names the stored width and height unambiguously. */
  lemma ResolutionRoundTrip(w: LocalWallpaper)
    ensures ParseResolution(Resolution(w)) == Some(PixelSize(w.width, w.height))
  {
    DecimalHasNoX(w.width);
    DecimalHasNoX(w.height);
    ParsePair(IntToDecimal(w.width), IntToDecimal(w.height));
    DecimalRoundTrip(w.width);
    DecimalRoundTrip(w.height);
  }

  /** A wallpaper whose image could not be read shows as "0x0". */
  lemma UnreadableResolution(path: string, uuid: string, now: int, sizeAttribute: Option<int>)
    ensures Resolution(NewLocalWallpaper(path, uuid, now, None, sizeAttribute)) == "0x0"
  {
    assert IntToDecimal(0) == "0";
  }

  // ---------------------------------------------------------------------------
  // Settings

  /** `WallpaperSettings`, the record persisted after every change. */
  datatype WallpaperSettings = WallpaperSettings(
    lightWallpaperPath: Option<string>,
    darkWallpaperPath: Option<string>,
    lightWallpaperId: Option<string>,
    darkWallpaperId: Option<string>,
    autoSwitchEnabled: bool,
    apiKey: Option<string>,
    favorites: seq<string>,
    localFavorites: seq<LocalWallpaper>)

  /** `WallpaperSettings()`: nothing chosen, auto-switch on, empty lists. */
  const DefaultSettings: WallpaperSettings :=
    WallpaperSettings(None, None, None, None, true, None, [], [])
}
