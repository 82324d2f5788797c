# hello-wallpaper, modelled in Dafny

hello-wallpaper is a macOS menu-bar app. It searches the Wallhaven gallery,
downloads wallpapers, keeps favorites, and sets a separate desktop picture
for light and dark appearance. This project models the logic under its
SwiftUI surface and proves properties of it. It covers four parts:

- **Search parameters** (`WallpaperModels`, `models.dfy`):
  - `WallhavenSearchParams` with its defaults and the raw values of its enums;
  - `toQueryItems`, modelled as a method that appends item by item and is proved equal to a fixed-order reference table;
  - `LocalWallpaper(path:)` with its fallbacks, and `resolution`;
  - the `WallpaperSettings` defaults.
- **The gallery client** (`WallhavenApi`, `api.dfy`):
  - request shapes for `search` and `getWallpaper`;
  - classification of responses into values or `WallhavenAPIError`s, and `errorDescription`;
  - `downloadWallpaper`, which replaces a file on a modelled disk (`FileSystem.Disk`, `fs.dfy`).
- **The settings manager** (`WallpaperManagement`, `manager.dfy`):
  - `WallpaperManager` as a class whose methods change `settings` and `currentAppearance`;
  - ghost logs of every settings value persisted by `didSet` and of every path put on the desktop.
- **The two screens' loading logic** (`SearchViews`, `views.dfy`):
  - Explore's pagination state machine;
  - the Favorites loop, which fetches each favorite id in order and skips failures.

`text.dfy` holds Swift's `String(Int)`, `joined(separator:)` and
`split(separator:)` on character sequences. `wrappers.dfy` holds `Option`
and `Result`.

These are parameters of the model:
- the network;
- the JSON decoders;
- whether `URL(string:)`/`URLComponents` accept a string;
- `NSImage`, file attributes, `UUID()` and `Date()`;
- the `AppleInterfaceStyle` default.

## Model

| member | source | states |
|---|---|---|
| WallpaperModels.RawValuesRoundTrip | hello-wallpaper/Models/WallpaperModels.swift:156-177 | each `Sorting`, `Order` and `TopRange` case's raw value reads back to that case, so the raw values are distinct |
| WallpaperModels.KeyNameRoundTrip | hello-wallpaper/Models/WallpaperModels.swift:180-221 | the thirteen query parameter names are pairwise distinct (each reads back to its parameter) |
| WallpaperModels.AppendIfSet | hello-wallpaper/Models/WallpaperModels.swift:195-197 | an optional value appends exactly one item with that name and value when set, none otherwise |
| WallpaperModels.ToQueryItems | hello-wallpaper/Models/WallpaperModels.swift:180-221 | the list built by successive appends equals the reference table `QueryItems(p)`: every parameter in the fixed order q, categories, purity, sorting, order, topRange, atleast, resolutions, ratios, colors, page, seed, apikey, filtered to those present |
| WallpaperModels.QueryItemsQuery | hello-wallpaper/Models/WallpaperModels.swift:183-185 | the first position contributes a `q` item exactly when the query is non-empty |
| WallpaperModels.QueryItemsHead | hello-wallpaper/Models/WallpaperModels.swift:186-189 | categories, purity, sorting and order follow, unconditionally, with the enums' raw values |
| WallpaperModels.QueryItemsMiddle | hello-wallpaper/Models/WallpaperModels.swift:191-201 | topRange follows only for toplist sorting; atleast when set; resolutions when non-empty, comma-joined |
| WallpaperModels.QueryItemsFilters | hello-wallpaper/Models/WallpaperModels.swift:203-209 | ratios when non-empty, comma-joined; colors when set |
| WallpaperModels.QueryItemsPage | hello-wallpaper/Models/WallpaperModels.swift:211 | page follows unconditionally, in decimal |
| WallpaperModels.QueryItemsTail | hello-wallpaper/Models/WallpaperModels.swift:213-219 | seed and apikey close the list, each when set |
| WallpaperModels.QueryItemsShape | hello-wallpaper/Models/WallpaperModels.swift:180-221 | the items are exactly one per present parameter, in strictly increasing parameter order, each carrying its parameter's name and value |
| WallpaperModels.QueryItemsComplete | hello-wallpaper/Models/WallpaperModels.swift:180-221 | a parameter appears among the items if and only if it has a value to send |
| WallpaperModels.QueryItemsLookup | hello-wallpaper/Models/WallpaperModels.swift:180-221 | looking up any parameter's name in the items gives exactly the value that parameter should send, or nothing |
| WallpaperModels.QueryFirst | hello-wallpaper/Models/WallpaperModels.swift:183-185 | with a non-empty query the first item is `q` with the query; with an empty query no item is named `q` |
| WallpaperModels.QueryItemCount | hello-wallpaper/Models/WallpaperModels.swift:180-221 | the item count is 5 plus one for each conditional parameter present |
| WallpaperModels.QueryItemsAlwaysSent | hello-wallpaper/Models/WallpaperModels.swift:186-189 | categories, purity, sorting, order and page are sent whatever the optional fields hold, with their values unchanged |
| WallpaperModels.QueryItemsWhenSet | hello-wallpaper/Models/WallpaperModels.swift:191-219 | topRange is sent iff sorting is toplist; atleast, colors, seed and apikey iff set, unchanged; resolutions and ratios iff non-empty, comma-joined |
| WallpaperModels.ListValueRoundTrip | hello-wallpaper/Models/WallpaperModels.swift:199-205 | a list is sent iff it is present and non-empty, and then, when no entry contains a comma, its joined value splits back into the list |
| WallpaperModels.ListValueCollision | hello-wallpaper/Models/WallpaperModels.swift:199-201 | without that condition the joined value is ambiguous: `["a,b"]` and `["a", "b"]` are both sent as `a,b` |
| WallpaperModels.DefaultQueryItems | hello-wallpaper/Models/WallpaperModels.swift:142-153 | default parameters send exactly five items: categories 111, purity 100, sorting date_added, order desc, page 1 |
| WallpaperModels.ItemOfDetailForgetsOnlyExtras | hello-wallpaper/Views/WallpaperSearchView.swift:570-589 | turning a detail record into a search item loses the uploader and tags and nothing else |
| WallpaperModels.LastPathComponent | hello-wallpaper/Models/WallpaperModels.swift:240 | when the path has a non-empty component, the name is the last non-empty "/"-separated piece, so it is non-empty and slash-free; a path of slashes only is its own name |
| WallpaperModels.NewLocalWallpaper | hello-wallpaper/Models/WallpaperModels.swift:237-258 | the entry keeps the given id, path and time, and is named after the path's last component; width and height come from the first representation, else the image size, else 0; the file size falls back to 0 |
| WallpaperModels.ResolutionRoundTrip | hello-wallpaper/Models/WallpaperModels.swift:235 | `resolution` is "<width>x<height>" and reads back to the width and height |
| WallpaperModels.UnreadableResolution | hello-wallpaper/Models/WallpaperModels.swift:247-250 | an unreadable image gives resolution "0x0" |
| Text.DecimalRoundTrip | hello-wallpaper/Models/WallpaperModels.swift:211 | `String(page)` reads back to the page number, negative numbers included |
| Text.SplitJoin | hello-wallpaper/Models/WallpaperModels.swift:200 | joining a non-empty list of pieces free of the separator and splitting again gives the pieces back |
| Text.LastPieceNoneIff | hello-wallpaper/Services/WallpaperManager.swift:106 | `split(separator:).last` is nil exactly for strings made only of separators |
| FileSystem.Disk.RemoveItem | hello-wallpaper/Services/WallhavenAPI.swift:86-87 | removal succeeds iff the path exists and nothing else refuses; success drops that path only, failure changes nothing |
| FileSystem.Disk.MoveItem | hello-wallpaper/Services/WallhavenAPI.swift:89 | the move succeeds iff the destination is absent and nothing else refuses; success adds the body at the destination only, failure changes nothing |
| WallhavenApi.HttpErrorDescription | hello-wallpaper/Services/WallhavenAPI.swift:24-25 | "HTTP error: " followed by the code, which reads back from the message |
| WallhavenApi.HttpErrorDescriptionInjective | hello-wallpaper/Services/WallhavenAPI.swift:24-25 | two HTTP error messages are equal iff their codes are |
| WallhavenApi.FixedDescriptionsDistinct | hello-wallpaper/Services/WallhavenAPI.swift:16-30 | the three fixed messages belong to their own case only |
| WallhavenApi.StatusError | hello-wallpaper/Services/WallhavenAPI.swift:113-118 | outside 200...299: 401 gives unauthorized, 429 rateLimited, any other status httpError carrying that status |
| WallhavenApi.FetchSucceeds | hello-wallpaper/Services/WallhavenAPI.swift:99-112 | a fetch succeeds iff the response is HTTP with a 2xx status and the body decodes, and then yields the decoded value |
| WallhavenApi.FetchFailures | hello-wallpaper/Services/WallhavenAPI.swift:99-118 | a transport error is passed on unchanged; a non-HTTP response is a network error before any status check; a 2xx body that fails to decode gives decodingError with the decoder's cause, and decodingError arises only on 2xx; a non-2xx status gives `StatusError` of that status; httpError carries the response's own non-2xx status other than 401/429; unauthorized iff 401, rateLimited iff 429 |
| WallhavenApi.SearchSendsQueryItems | hello-wallpaper/Services/WallhavenAPI.swift:46-55 | search fetches base/search with exactly `toQueryItems()`, and fails with invalidURL only when the URL cannot be built |
| WallhavenApi.DetailRequestShape | hello-wallpaper/Services/WallhavenAPI.swift:57-66 | getWallpaper targets base/w/<id> and carries a single apikey item iff a key is given |
| WallhavenApi.DownloadWallpaper | hello-wallpaper/Services/WallhavenAPI.swift:72-97 | invalid URL, transport failure and non-HTTP responses leave the disk alone with their errors; a non-2xx status leaves it alone with the same mapping as fetch; on 2xx an existing destination is removed and the body moved in, and each refusal stops there; only the destination ever changes |
| WallpaperManagement.DetectAppearance | hello-wallpaper/Services/WallpaperManager.swift:45-48 | the appearance is dark iff the interface style is "Dark" |
| WallpaperManagement.FirstIndex | hello-wallpaper/Services/WallpaperManager.swift:143 | `firstIndex(of:)` is nil iff the id is absent, else the position of its first occurrence |
| WallpaperManagement.ToggleAbsentRoundTrip | hello-wallpaper/Services/WallpaperManager.swift:142-148 | toggling an absent id appends it at the end, and toggling again restores the list exactly |
| WallpaperManagement.ToggleKeepsDistinct | hello-wallpaper/Services/WallpaperManager.swift:142-148 | toggling never introduces a duplicate |
| WallpaperManagement.ToggleFlips | hello-wallpaper/Services/WallpaperManager.swift:138-148 | on a list without duplicates `isFavorite(id)` flips with every toggle |
| WallpaperManagement.ToggleWithDuplicateKeepsId | hello-wallpaper/Services/WallpaperManager.swift:142-148 | with the id listed twice a toggle removes one copy only, so the flip needs the lack of duplicates |
| WallpaperManagement.ToggleOthers | hello-wallpaper/Services/WallpaperManager.swift:142-148 | toggling one id leaves every other id's membership alone |
| WallpaperManagement.WithLocalKeepsPathsUnique | hello-wallpaper/Services/WallpaperManager.swift:150-154 | adding keeps paths unique; afterwards exactly one entry has the path, the new one appended unless the path was already there |
| WallpaperManagement.WithoutIdMembers | hello-wallpaper/Services/WallpaperManager.swift:156-158 | an entry survives removal iff it was there and has another id |
| WallpaperManagement.WithoutIdAppend | hello-wallpaper/Services/WallpaperManager.swift:156-158 | removal distributes over concatenation, so the survivors keep their original order |
| WallpaperManagement.WithoutIdAbsent | hello-wallpaper/Services/WallpaperManager.swift:156-158 | removing an id no entry has changes nothing |
| WallpaperManagement.WithoutIdKeepsPathsUnique | hello-wallpaper/Services/WallpaperManager.swift:156-158 | removal keeps paths unique |
| WallpaperManagement.SlotLaws | hello-wallpaper/Services/WallpaperManager.swift:127-136 | setting a mode's path and id reads back, leaves the other mode, auto-switch, key, favorites and local favorites alone, and setting a slot to its own value changes nothing |
| WallpaperManagement.FileNameOfMimeType | hello-wallpaper/Services/WallpaperManager.swift:106 | a file type "kind/sub" names the download "<id>.sub" |
| WallpaperManagement.FileNameExtension | hello-wallpaper/Services/WallpaperManager.swift:106 | the name is the id, a dot and an extension that is "jpg" when the type is only slashes, otherwise the last non-empty slash-free piece of the type |
| WallpaperManagement.WallpaperToApplyUsesSlot | hello-wallpaper/Services/WallpaperManager.swift:86-95 | the dark path is used iff the appearance is dark; nothing is applied when that slot is nil or its file is missing |
| WallpaperManagement.WallpaperManager.constructor | hello-wallpaper/Services/WallpaperManager.swift:28-43 | the stored settings when they decode, else the defaults; the detected appearance; nothing persisted or applied; the defaults satisfy the manager's invariant (favorites without duplicates, local paths unique) |
| WallpaperManagement.WallpaperManager.Update | hello-wallpaper/Services/WallpaperManager.swift:14-16 | each mutation of `settings` persists the new value once |
| WallpaperManagement.WallpaperManager.ToggleFavorite | hello-wallpaper/Services/WallpaperManager.swift:142-148 | only the favorites change, to the toggled list, with one save; an absent id is appended; with no duplicates before there are none after and `isFavorite` flips |
| WallpaperManagement.WallpaperManager.AddLocalFavorite | hello-wallpaper/Services/WallpaperManager.swift:150-154 | nothing happens (no save) when the path is present; otherwise exactly the new entry is appended, with one save; path-uniqueness is kept |
| WallpaperManagement.WallpaperManager.RemoveLocalFavorite | hello-wallpaper/Services/WallpaperManager.swift:156-158 | every entry with the id goes, the rest stay in order, nothing else changes, and one save happens even when nothing was removed |
| WallpaperManagement.WallpaperManager.ClearWallpaper | hello-wallpaper/Services/WallpaperManager.swift:127-136 | only that mode's path and id become nil, with two saves (path first) |
| WallpaperManagement.WallpaperManager.DownloadAndSetWallpaper | hello-wallpaper/Services/WallpaperManager.swift:105-125 | downloads only when the destination is absent; a failure leaves settings, saves and desktop untouched; otherwise the slot holds destination and id (two saves) and the desktop gets the destination iff the mode is the current appearance |
| WallpaperManagement.WallpaperManager.SetSlotAndApply | hello-wallpaper/Services/WallpaperManager.swift:113-124 | the switch shared by `downloadAndSetWallpaper` and `setLocalWallpaper` (also lines 163-174): the mode's path and then its id are set, in two saves, nothing else in the settings changes, and the desktop gets the path iff the mode is the current appearance |
| WallpaperManagement.WallpaperManager.SetLocalWallpaper | hello-wallpaper/Services/WallpaperManager.swift:160-175 | the slot holds the local path and "local:" + its id (two saves); the desktop gets the path iff the mode is the current appearance |
| WallpaperManagement.WallpaperManager.ApplyWallpaperForCurrentAppearance | hello-wallpaper/Services/WallpaperManager.swift:86-95 | applies the current appearance's path when set and on disk, and changes nothing else |
| WallpaperManagement.WallpaperManager.HandleAppearanceChange | hello-wallpaper/Services/WallpaperManager.swift:76-84 | the appearance is always updated; the wallpaper is applied only when auto-switch is on; settings are untouched |
| SearchViews.ExploreRequestItems | hello-wallpaper/Views/WallpaperSearchView.swift:192-196 | Explore asks for toplist over 1M at 1920x1080 or more, at the current page, with the text first as q when non-empty, and without an API key |
| SearchViews.LoadOutcome | hello-wallpaper/Views/WallpaperSearchView.swift:186-213 | a load while loading does nothing; otherwise it ends not loading; success replaces on page 1, appends later, sets hasMorePages to page < lastPage and clears the error; failure sets the error and keeps the list and hasMorePages |
| SearchViews.LoadMoreOutcome | hello-wallpaper/Views/WallpaperSearchView.swift:215-221 | the page moves on by exactly one, only when idle with more pages |
| SearchViews.RestartShowsFirstPage | hello-wallpaper/Views/WallpaperSearchView.swift:95-101 | when no load is running, after a restart the page is 1 and the list is exactly the first page, or empty on failure |
| SearchViews.FeedAppends | hello-wallpaper/Views/WallpaperSearchView.swift:201-205 | pages past the first accumulate in arrival order after what is shown |
| SearchViews.FeedFromFirstPage | hello-wallpaper/Views/WallpaperSearchView.swift:201-205 | pages 1, 2, ... leave exactly their concatenation, whatever was shown before |
| SearchViews.ExploreModel.constructor | hello-wallpaper/Views/WallpaperSearchView.swift:54-59 | empty text and list, not loading, no error, page 1, more pages assumed |
| SearchViews.ExploreModel.LoadWallpapers | hello-wallpaper/Views/WallpaperSearchView.swift:186-213 | the new state is the load's outcome and the request uses the Explore parameters of the current text and page, sent only when not already loading |
| SearchViews.ExploreModel.LoadMoreIfNeeded | hello-wallpaper/Views/WallpaperSearchView.swift:215-221 | the state after moving one page on and loading, or unchanged when loading or out of pages |
| SearchViews.ExploreModel.Restart | hello-wallpaper/Views/WallpaperSearchView.swift:95-101 | back to page 1 with an empty list, then load (the Retry button at lines 144-150 runs the same steps) |
| SearchViews.ExploreModel.Clear | hello-wallpaper/Views/WallpaperSearchView.swift:104-110 | the text is emptied, then the same reset and load |
| SearchViews.FavoritesModel.constructor | hello-wallpaper/Views/WallpaperSearchView.swift:500-501 | the initial `@State`: no favorites shown, not loading, nothing fetched yet |
| SearchViews.Succeeded | hello-wallpaper/Views/WallpaperSearchView.swift:567-594 | lists, in increasing order, exactly the positions whose fetch succeeds |
| SearchViews.LoadedAreSuccesses | hello-wallpaper/Views/WallpaperSearchView.swift:567-597 | the loaded list has one item per successful fetch, the n-th being the n-th success's detail, so failures are skipped and favorites order is kept |
| SearchViews.LoadedAppend | hello-wallpaper/Views/WallpaperSearchView.swift:567-594 | loading two runs of ids gives both lists in order |
| SearchViews.AllLoaded | hello-wallpaper/Views/WallpaperSearchView.swift:567-597 | when every fetch succeeds the list is the ids' details one for one |
| SearchViews.FavoritesModel.LoadFavorites | hello-wallpaper/Views/WallpaperSearchView.swift:558-598 | empty favorites give an empty list with no fetch; otherwise every id is fetched once in order, without a key, the list is the successes' items and loading ends false |

## Left out

- SwiftUI layout, hover and animation state, sheets, `AsyncImage`, `NSOpenPanel` and `hello_wallpaperApp.swift`. These are UI and app lifecycle.
- `URLSession` transport. A request's outcome comes from a `network` function, and a download's outcome is a parameter. The temporary file of a download is not put on the disk: its body is moved to the destination directly.
- JSON coding (`Codable`, `CodingKeys`, `JSONEncoder`, `JSONDecoder`). Decoders are parameters. A settings save is taken never to fail to encode, so every `didSet` adds one entry to the `saved` log.
- URL building. Whether `URL(string:)` or `URLComponents` yields a URL is a parameter, and percent-encoding is not modelled.
- WallhavenApi.GetWallpaper: the force-unwrapped `URLComponents(string:)!` at hello-wallpaper/Services/WallhavenAPI.swift:47 and :58 traps (the app crashes) when the string does not parse, for instance a favorite id holding a space. The model merges that trap with the `components.url == nil` guard into one `buildsUrl` flag and returns `invalidURL` instead. `LoadFavorites` then skips such an id and carries on, where the app would have crashed. For `Search` the string is a constant, so only its `components.url` guard can fail.
- Error wording. Errors thrown by Foundation are carried as their description strings. The cause of a `networkError` for a non-HTTP response is kept as its domain, "Invalid response", not Foundation's full sentence.
- `NSWorkspace.setDesktopImageURL` over `NSScreen.screens`. Each call adds one entry to the `applied` log whatever the number of screens, and its errors are ignored as the source ignores them.
- `UserDefaults`, `DistributedNotificationCenter` and `deinit`. The stored settings and the `AppleInterfaceStyle` value are parameters, and an appearance change is an explicit method call.
- Creating the wallpaper directory. `appendingPathComponent` is read as directory + "/" + name, without path normalisation.
- WallpaperModels.LastPathComponent: `URL(fileURLWithPath:).lastPathComponent` is read as the last non-empty "/"-separated piece, or the path itself when there is none.
- `NSImage` probing. The image's point size arrives already truncated to integers. `Date()` is an integer tick count and `UUID()` a given string.
- `formatCompact`, `formatNumber` and `ByteCountFormatter`, which involve floating point and locale formatting.
- `async`, `Task` and actor interleavings. Every operation runs to completion before the next one. The tasks started by `loadMoreIfNeeded`, `handleAppearanceChange` and the Explore handlers run at once. Concurrent loads racing each other are not modelled.
- String comparison. Swift's `String ==` compares by canonical equivalence, the model compares character sequences. This affects `firstIndex(of:)` and `contains` on favorite ids, the path test of `addLocalFavorite`, the `"Dark"` test and `split(separator: "/")`, which Swift applies to grapheme clusters. The two differ only for strings, such as paths, that are not in normalised form.
- The `print` of a failed favorite fetch, which is logging only.
