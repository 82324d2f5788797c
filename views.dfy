/** The loading logic of the Explore and Favorites screens: pagination over
    search results, and fetching the details of every favorite id. */
module SearchViews {
  import opened Wrappers
  import opened Text
  import opened WallpaperModels
  import opened FileSystem
  import opened WallhavenApi

  /** What the views reach through `WallhavenAPI.shared`: whether a URL string
      can be built, the network, and the JSON decoders of the two responses. */
  datatype Gallery = Gallery(
    parses: string -> bool,
    network: Request -> Result<Exchange, string>,
    decodeSearch: Bytes -> Result<SearchResponse, string>,
    decodeDetail: Bytes -> Result<WallpaperDetail, string>)

  function SearchWith(g: Gallery, p: SearchParams): Result<SearchResponse, Failure> {
    Search(p, g.parses(SearchRequest(p).url), g.network, g.decodeSearch)
  }

  /** `getWallpaper(id:)` as the Favorites screen calls it: without a key. */
  function DetailWith(g: Gallery, id: string): Result<WallpaperDetail, Failure> {
    GetWallpaper(id, None, g.parses(DetailRequest(id, None).url), g.network, g.decodeDetail)
  }

  // ---------------------------------------------------------------------------
  // Explore

  /** The parameters `loadWallpapers()` searches with. */
  function ExploreParams(text: string, page: int): SearchParams {
    DefaultParams.(query := text, page := page, sorting := Toplist, atleast := Some("1920x1080"))
  }

  /** An Explore search asks for the month's toplist at 1920x1080 or more, at
      the current page, with the text as `q` first when there is text, and
      sends nothing else. */
  lemma ExploreRequestItems(text: string, page: int)
    ensures |QueryItems(ExploreParams(text, page))| == 7 + Flag(text != "")
    ensures Lookup(QueryItems(ExploreParams(text, page)), "sorting") == Some("toplist")
    ensures Lookup(QueryItems(ExploreParams(text, page)), "topRange") == Some("1M")
    ensures Lookup(QueryItems(ExploreParams(text, page)), "atleast") == Some("1920x1080")
    ensures Lookup(QueryItems(ExploreParams(text, page)), "page") == Some(IntToDecimal(page))
    ensures Lookup(QueryItems(ExploreParams(text, page)), "categories") == Some("111")
    ensures Lookup(QueryItems(ExploreParams(text, page)), "purity") == Some("100")
    ensures Lookup(QueryItems(ExploreParams(text, page)), "apikey") == None
    ensures text != "" ==> QueryItems(ExploreParams(text, page))[0] == QueryItem("q", text)
  {
    var p := ExploreParams(text, page);
    QueryItemCount(p);
    QueryItemsAlwaysSent(p);
    QueryItemsWhenSet(p);
    QueryFirst(p);
  }

  /** The `@State` of `ExploreView` that loading touches. */
  datatype ExploreState = ExploreState(
    searchText: string, wallpapers: seq<WallpaperItem>, isLoading: bool,
    errorMessage: Option<string>, currentPage: int, hasMorePages: bool)

  /** The list after a page arrives: page 1 replaces it, later pages extend it. */
  function Merged(wallpapers: seq<WallpaperItem>, page: int, data: seq<WallpaperItem>): seq<WallpaperItem> {
    if page == 1 then data else wallpapers + data
  }

  /** The state after `loadWallpapers()` runs to completion. */
  function AfterLoad(st: ExploreState, g: Gallery): ExploreState {
    if st.isLoading then st
    else
      match SearchWith(g, ExploreParams(st.searchText, st.currentPage))
      case Success(response) =>
        st.(wallpapers := Merged(st.wallpapers, st.currentPage, response.data),
            hasMorePages := st.currentPage < response.meta.lastPage,
            errorMessage := None, isLoading := false)
      case Failure(f) =>
        st.(errorMessage := Some(Describe(f)), isLoading := false)
  }

  /** The state after `loadMoreIfNeeded()` and the load it starts. */
  function AfterLoadMore(st: ExploreState, g: Gallery): ExploreState {
    if !st.isLoading && st.hasMorePages then AfterLoad(st.(currentPage := st.currentPage + 1), g) else st
  }

  /** What submitting, clearing and retrying do before loading. */
  function Restarted(st: ExploreState): ExploreState {
    st.(currentPage := 1, wallpapers := [])
  }

  /** A load started while one is running does nothing. Otherwise it ends not
      loading, on the same page and text; a success merges the page and sets
      `hasMorePages` from the last page, a failure reports the error and keeps
      the list and `hasMorePages`. */
  lemma LoadOutcome(st: ExploreState, g: Gallery)
    ensures st.isLoading ==> AfterLoad(st, g) == st
    ensures !st.isLoading ==>
      var r := AfterLoad(st, g);
      var outcome := SearchWith(g, ExploreParams(st.searchText, st.currentPage));
      && !r.isLoading && r.currentPage == st.currentPage && r.searchText == st.searchText
      && (outcome.Success? ==>
            && r.wallpapers == (if st.currentPage == 1 then outcome.value.data else st.wallpapers + outcome.value.data)
            && (r.hasMorePages <==> st.currentPage < outcome.value.meta.lastPage)
            && r.errorMessage.None?)
      && (outcome.Failure? ==>
            && r.wallpapers == st.wallpapers && r.hasMorePages == st.hasMorePages
            && r.errorMessage == Some(Describe(outcome.error)))
  {
  }

  /** Loading more moves exactly one page on, and only when idle with more
      pages to come. */
  lemma LoadMoreOutcome(st: ExploreState, g: Gallery)
    ensures !st.isLoading && st.hasMorePages ==> AfterLoadMore(st, g).currentPage == st.currentPage + 1
    ensures st.isLoading || !st.hasMorePages ==> AfterLoadMore(st, g) == st
  {
  }

  /** After a restart the list is exactly the first page, or empty on failure. */
  lemma RestartShowsFirstPage(st: ExploreState, g: Gallery)
    requires !st.isLoading
    ensures var outcome := SearchWith(g, ExploreParams(st.searchText, 1));
      && (outcome.Success? ==> AfterLoad(Restarted(st), g).wallpapers == outcome.value.data)
      && (outcome.Failure? ==> AfterLoad(Restarted(st), g).wallpapers == [])
    ensures AfterLoad(Restarted(st), g).currentPage == 1
  {
  }

  function Concat(batches: seq<seq<WallpaperItem>>): seq<WallpaperItem> {
    if batches == [] then [] else batches[0] + Concat(batches[1..])
  }

  /** Pages `first`, `first + 1`, ... arriving one after another. */
  function Feed(wallpapers: seq<WallpaperItem>, first: int, batches: seq<seq<WallpaperItem>>): seq<WallpaperItem>
    decreases |batches|
  {
    if batches == [] then wallpapers
    else Feed(Merged(wallpapers, first, batches[0]), first + 1, batches[1..])
  }

  /** Past page 1, successive pages append in order to what is shown. */
  lemma {:induction false} FeedAppends(wallpapers: seq<WallpaperItem>, first: int, batches: seq<seq<WallpaperItem>>)
    requires first >= 2
    ensures Feed(wallpapers, first, batches) == wallpapers + Concat(batches)
    decreases |batches|
  {
    if batches != [] {
      FeedAppends(wallpapers + batches[0], first + 1, batches[1..]);
    }
  }

  /** Pages 1, 2, ... leave the list holding all of them in order, whatever
      was shown before. */
  lemma FeedFromFirstPage(wallpapers: seq<WallpaperItem>, batches: seq<seq<WallpaperItem>>)
    requires batches != []
    ensures Feed(wallpapers, 1, batches) == Concat(batches)
  {
    FeedAppends(batches[0], 2, batches[1..]);
  }

  class ExploreModel {
    var searchText: string
    var wallpapers: seq<WallpaperItem>
    var isLoading: bool
    var errorMessage: Option<string>
    var currentPage: int
    var hasMorePages: bool
    /** Every parameter record handed to `search(params:)`. */
    ghost var requests: seq<SearchParams>

    function State(): ExploreState
      reads this
    {
      ExploreState(searchText, wallpapers, isLoading, errorMessage, currentPage, hasMorePages)
    }

    /** The initial `@State` values. */
    constructor()
      ensures State() == ExploreState("", [], false, None, 1, true)
      ensures requests == []
    {
      searchText := "";
      wallpapers := [];
      isLoading := false;
      errorMessage := None;
      currentPage := 1;
      hasMorePages := true;
      requests := [];
    }

    /** `loadWallpapers()`. */
    method LoadWallpapers(g: Gallery)
      modifies this
      ensures State() == AfterLoad(old(State()), g)
      ensures requests == old(requests) + (if old(isLoading) then [] else [ExploreParams(old(searchText), old(currentPage))])
    {
      if isLoading {
        return;
      }
      isLoading := true;
      errorMessage := None;
      var params := DefaultParams;
      params := params.(query := searchText);
      params := params.(page := currentPage);
      params := params.(sorting := Toplist);
      params := params.(atleast := Some("1920x1080"));
      requests := requests + [params];
      var outcome := SearchWith(g, params);
      match outcome {
        case Success(response) =>
          if currentPage == 1 {
            wallpapers := response.data;
          } else {
            wallpapers := wallpapers + response.data;
          }
          hasMorePages := currentPage < response.meta.lastPage;
        case Failure(f) =>
          errorMessage := Some(Describe(f));
      }
      isLoading := false;
    }

    /** `loadMoreIfNeeded()`; the task it starts is taken to run at once. */
    method LoadMoreIfNeeded(g: Gallery)
      modifies this
      ensures State() == AfterLoadMore(old(State()), g)
      ensures !old(isLoading) && old(hasMorePages) ==>
        requests == old(requests) + [ExploreParams(old(searchText), old(currentPage) + 1)]
      ensures old(isLoading) || !old(hasMorePages) ==> requests == old(requests)
    {
      if isLoading || !hasMorePages {
        return;
      }
      currentPage := currentPage + 1;
      LoadWallpapers(g);
    }

    /** The search field's `onSubmit`, and the Retry button: back to page 1
        with an empty list, then load. */
    method Restart(g: Gallery)
      modifies this
      ensures State() == AfterLoad(Restarted(old(State())), g)
      ensures requests == old(requests) + (if old(isLoading) then [] else [ExploreParams(old(searchText), 1)])
    {
      currentPage := 1;
      wallpapers := [];
      LoadWallpapers(g);
    }

    /** The clear button: the text emptied, then as `Restart`. */
    method Clear(g: Gallery)
      modifies this
      ensures State() == AfterLoad(Restarted(old(State()).(searchText := "")), g)
      ensures requests == old(requests) + (if old(isLoading) then [] else [ExploreParams("", 1)])
    {
      searchText := "";
      Restart(g);
    }
  }

  // ---------------------------------------------------------------------------
  // Favorites

  /** The list `loadFavorites()` builds from some ids: each fetched in order,
      failures skipped. */
  function Loaded(ids: seq<string>, g: Gallery): seq<WallpaperItem> {
    if ids == [] then []
    else
      var init := Loaded(ids[..|ids| - 1], g);
      match DetailWith(g, ids[|ids| - 1])
      case Success(detail) => init + [ItemOfDetail(detail)]
      case Failure(_) => init
  }

  /** The positions of the ids whose fetch succeeds, in increasing order. */
  function Succeeded(ids: seq<string>, g: Gallery): (pos: seq<nat>)
    ensures forall j :: 0 <= j < |pos| ==> pos[j] < |ids| && DetailWith(g, ids[pos[j]]).Success?
    ensures forall j1, j2 :: 0 <= j1 < j2 < |pos| ==> pos[j1] < pos[j2]
    ensures forall k :: 0 <= k < |ids| && DetailWith(g, ids[k]).Success? ==> k in pos
  {
    if ids == [] then []
    else
      var init := ids[..|ids| - 1];
      assert forall k :: 0 <= k < |init| ==> init[k] == ids[k];
      if DetailWith(g, ids[|ids| - 1]).Success? then Succeeded(init, g) + [|ids| - 1]
      else Succeeded(init, g)
  }

  /** The list holds one item per successful fetch, the n-th being the n-th
      success's detail as a search item: failures are skipped and the order
      of the ids is kept. */
  lemma {:induction false} LoadedAreSuccesses(ids: seq<string>, g: Gallery)
    ensures |Loaded(ids, g)| == |Succeeded(ids, g)|
    ensures forall j :: 0 <= j < |Loaded(ids, g)| ==>
      Loaded(ids, g)[j] == ItemOfDetail(DetailWith(g, ids[Succeeded(ids, g)[j]]).value)
    decreases |ids|
  {
    if ids != [] {
      var init := ids[..|ids| - 1];
      LoadedAreSuccesses(init, g);
      assert forall k :: 0 <= k < |init| ==> init[k] == ids[k];
    }
  }

  /** Loading two runs of ids one after the other gives both lists in order. */
  lemma {:induction false} LoadedAppend(a: seq<string>, b: seq<string>, g: Gallery)
    ensures Loaded(a + b, g) == Loaded(a, g) + Loaded(b, g)
    decreases |b|
  {
    if b == [] {
      assert a + b == a;
    } else {
      var b' := b[..|b| - 1];
      assert (a + b)[..|a + b| - 1] == a + b';
      LoadedAppend(a, b', g);
    }
  }

  /** When every fetch succeeds, the list is the ids' details, one for one. */
  lemma AllLoaded(ids: seq<string>, g: Gallery)
    requires forall k :: 0 <= k < |ids| ==> DetailWith(g, ids[k]).Success?
    ensures |Loaded(ids, g)| == |ids|
    ensures forall k :: 0 <= k < |ids| ==> Loaded(ids, g)[k] == ItemOfDetail(DetailWith(g, ids[k]).value)
  {
    LoadedAreSuccesses(ids, g);
    SucceededAll(ids, g);
  }

  lemma {:induction false} SucceededAll(ids: seq<string>, g: Gallery)
    requires forall k :: 0 <= k < |ids| ==> DetailWith(g, ids[k]).Success?
    ensures |Succeeded(ids, g)| == |ids|
    ensures forall k :: 0 <= k < |ids| ==> Succeeded(ids, g)[k] == k
    decreases |ids|
  {
    if ids != [] {
      var init := ids[..|ids| - 1];
      assert forall k :: 0 <= k < |init| ==> init[k] == ids[k];
      SucceededAll(init, g);
    }
  }

  class FavoritesModel {
    var favoriteWallpapers: seq<WallpaperItem>
    var isLoading: bool
    /** Every id handed to `getWallpaper(id:)`. */
    ghost var requested: seq<string>

    constructor()
      ensures favoriteWallpapers == [] && !isLoading && requested == []
    {
      favoriteWallpapers := [];
      isLoading := false;
      requested := [];
    }

    /** `loadFavorites()`, given the manager's favorite ids. */
    method LoadFavorites(favorites: seq<string>, g: Gallery)
      modifies this
      ensures favorites == [] ==>
        favoriteWallpapers == [] && isLoading == old(isLoading) && requested == old(requested)
      ensures favorites != [] ==>
        favoriteWallpapers == Loaded(favorites, g) && !isLoading && requested == old(requested) + favorites
    {
      if favorites == [] {
        favoriteWallpapers := [];
        return;
      }
      isLoading := true;
      var loaded: seq<WallpaperItem> := [];
      for i := 0 to |favorites|
        invariant loaded == Loaded(favorites[..i], g)
        invariant requested == old(requested) + favorites[..i]
      {
        var id := favorites[i];
        assert favorites[..i + 1][..i] == favorites[..i];
        requested := requested + [id];
        var fetched := DetailWith(g, id);
        match fetched {
          case Success(detail) =>
            loaded := loaded + [ItemOfDetail(detail)];
          case Failure(_) =>
        }
      }
      assert favorites[..|favorites|] == favorites;
      favoriteWallpapers := loaded;
      isLoading := false;
    }
  }
}
