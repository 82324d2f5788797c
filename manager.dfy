/** `WallpaperManager`: the persisted settings, the appearance the system is in,
    and the operations that change them. The desktop picture and the user
    defaults store are ghost logs; the file system is a `Disk`. */
module WallpaperManagement {
  import opened Wrappers
  import opened Text
  import opened WallpaperModels
  import opened FileSystem
  import opened WallhavenApi

  datatype AppearanceMode = Light | Dark

  /** `detectCurrentAppearance()`, given the `AppleInterfaceStyle` default. */
  function DetectAppearance(interfaceStyle: Option<string>): (m: AppearanceMode)
    ensures m == Dark <==> interfaceStyle == Some("Dark")
  {
    if interfaceStyle == Some("Dark") then Dark else Light
  }

  // ---------------------------------------------------------------------------
  // Favorite ids

  predicate NoDuplicates(xs: seq<string>) {
    forall i, j :: 0 <= i < j < |xs| ==> xs[i] != xs[j]
  }

  /** `firstIndex(of:)`. */
  function FirstIndex(xs: seq<string>, x: string): (r: Option<nat>)
    ensures r.None? <==> x !in xs
    ensures r.Some? ==> r.value < |xs| && xs[r.value] == x && x !in xs[..r.value]
  {
    if xs == [] then None
    else if xs[0] == x then Some(0)
    else
      match FirstIndex(xs[1..], x)
      case None => None
      case Some(i) =>
        assert xs[..i + 1] == [xs[0]] + xs[1..][..i];
        Some(i + 1)
  }

  /** The favorites after `toggleFavorite(id)`: the first occurrence removed,
      or the id appended when there is none. */
  function Toggled(favorites: seq<string>, id: string): seq<string> {
    match FirstIndex(favorites, id)
    case Some(i) => favorites[..i] + favorites[i + 1..]
    case None => favorites + [id]
  }

  /** Toggling an absent id appends it, and toggling again restores the list. */
  lemma ToggleAbsentRoundTrip(favorites: seq<string>, id: string)
    requires id !in favorites
    ensures Toggled(favorites, id) == favorites + [id]
    ensures Toggled(Toggled(favorites, id), id) == favorites
  {
    var t := favorites + [id];
    var r := FirstIndex(t, id);
    assert r.value == |favorites|;
    assert t[..|favorites|] == favorites;
  }

  /** Toggling never introduces a duplicate. */
  lemma ToggleKeepsDistinct(favorites: seq<string>, id: string)
    requires NoDuplicates(favorites)
    ensures NoDuplicates(Toggled(favorites, id))
  {
    var r := Toggled(favorites, id);
    match FirstIndex(favorites, id)
    case Some(i) =>
      forall a, b | 0 <= a < b < |r| ensures r[a] != r[b] {
        var a' := if a < i then a else a + 1;
        var b' := if b < i then b else b + 1;
        assert r[a] == favorites[a'] && r[b] == favorites[b'];
      }
    case None =>
      forall a, b | 0 <= a < b < |r| ensures r[a] != r[b] {
        if b == |favorites| {
          assert r[a] == favorites[a];
        } else {
          assert r[a] == favorites[a] && r[b] == favorites[b];
        }
      }
  }

  /** On a list without duplicates, toggling flips membership of the id. */
  lemma ToggleFlips(favorites: seq<string>, id: string)
    requires NoDuplicates(favorites)
    ensures id in Toggled(favorites, id) <==> id !in favorites
  {
    var r := Toggled(favorites, id);
    match FirstIndex(favorites, id)
    case Some(i) =>
      forall k | 0 <= k < |r| ensures r[k] != id {
        if k < i {
          assert r[k] == favorites[k];
        } else {
          assert r[k] == favorites[k + 1];
        }
      }
    case None =>
      assert r[|favorites|] == id;
  }

  /** With a duplicate, toggling removes one copy only, so the id stays a
      favorite: the flip needs the list to be free of duplicates. */
  lemma ToggleWithDuplicateKeepsId(id: string)
    ensures Toggled([id, id], id) == [id]
  {
    assert FirstIndex([id, id], id) == Some(0);
  }

  /** Toggling leaves the membership of every other id alone. */
  lemma ToggleOthers(favorites: seq<string>, id: string, other: string)
    requires other != id
    ensures other in Toggled(favorites, id) <==> other in favorites
  {
    match FirstIndex(favorites, id)
    case Some(i) =>
      assert favorites == favorites[..i] + [favorites[i]] + favorites[i + 1..];
    case None =>
  }

  // ---------------------------------------------------------------------------
  // Local favorites

  predicate HasPath(locals: seq<LocalWallpaper>, path: string) {
    exists k :: 0 <= k < |locals| && locals[k].path == path
  }

  predicate PathsUnique(locals: seq<LocalWallpaper>) {
    forall a, b :: 0 <= a < b < |locals| ==> locals[a].path != locals[b].path
  }

  /** The local favorites after `addLocalFavorite` of a wallpaper. */
  function WithLocal(locals: seq<LocalWallpaper>, w: LocalWallpaper): seq<LocalWallpaper> {
    if HasPath(locals, w.path) then locals else locals + [w]
  }

  /** Adding keeps paths unique; afterwards exactly one entry has the path,
      and it is the new one unless the path was there before. */
  lemma WithLocalKeepsPathsUnique(locals: seq<LocalWallpaper>, w: LocalWallpaper)
    requires PathsUnique(locals)
    ensures PathsUnique(WithLocal(locals, w))
    ensures HasPath(WithLocal(locals, w), w.path)
    ensures !HasPath(locals, w.path) ==> WithLocal(locals, w) == locals + [w]
    ensures forall k :: 0 <= k < |WithLocal(locals, w)| && WithLocal(locals, w)[k].path == w.path ==>
      forall j :: 0 <= j < |WithLocal(locals, w)| && j != k ==> WithLocal(locals, w)[j].path != w.path
  {
    var r := WithLocal(locals, w);
    if !HasPath(locals, w.path) {
      assert r[|locals|].path == w.path;
      forall a, b | 0 <= a < b < |r| ensures r[a].path != r[b].path {
        assert r[a] == locals[a];
        if b < |locals| {
          assert r[b] == locals[b];
        }
      }
    }
  }

  /** The local favorites after `removeLocalFavorite`: every entry with the
      id dropped, the rest in their order. */
  function WithoutId(locals: seq<LocalWallpaper>, id: string): seq<LocalWallpaper> {
    if locals == [] then []
    else (if locals[0].id == id then [] else [locals[0]]) + WithoutId(locals[1..], id)
  }

  /** An entry survives exactly when it was there and has another id. */
  lemma {:induction false} WithoutIdMembers(locals: seq<LocalWallpaper>, id: string, w: LocalWallpaper)
    ensures w in WithoutId(locals, id) <==> w in locals && w.id != id
    decreases |locals|
  {
    if locals != [] {
      WithoutIdMembers(locals[1..], id, w);
      assert locals == [locals[0]] + locals[1..];
    }
  }

  /** Removal works piece by piece, so the survivors keep their order. */
  lemma {:induction false} WithoutIdAppend(a: seq<LocalWallpaper>, b: seq<LocalWallpaper>, id: string)
    ensures WithoutId(a + b, id) == WithoutId(a, id) + WithoutId(b, id)
    decreases |a|
  {
    if a != [] {
      assert (a + b)[1..] == a[1..] + b;
      WithoutIdAppend(a[1..], b, id);
    } else {
      assert a + b == b;
    }
  }

  /** Nothing is removed when no entry has the id. */
  lemma {:induction false} WithoutIdAbsent(locals: seq<LocalWallpaper>, id: string)
    requires forall k :: 0 <= k < |locals| ==> locals[k].id != id
    ensures WithoutId(locals, id) == locals
    decreases |locals|
  {
    if locals != [] {
      WithoutIdAbsent(locals[1..], id);
      assert locals == [locals[0]] + locals[1..];
    }
  }

  /** Removal keeps paths unique. */
  lemma {:induction false} WithoutIdKeepsPathsUnique(locals: seq<LocalWallpaper>, id: string)
    requires PathsUnique(locals)
    ensures PathsUnique(WithoutId(locals, id))
    decreases |locals|
  {
    if locals != [] {
      var tail := locals[1..];
      WithoutIdKeepsPathsUnique(tail, id);
      var rest := WithoutId(tail, id);
      if locals[0].id != id {
        var r := WithoutId(locals, id);
        assert r == [locals[0]] + rest;
        forall b | 0 < b < |r| ensures r[0].path != r[b].path {
          WithoutIdMembers(tail, id, r[b]);
          var j :| 0 <= j < |tail| && tail[j] == r[b];
          assert locals[j + 1] == r[b];
        }
        forall a, b | 0 <= a < b < |r| ensures r[a].path != r[b].path {
          if a > 0 {
            assert r[a] == rest[a - 1] && r[b] == rest[b - 1];
          }
        }
      }
    }
  }

  // ---------------------------------------------------------------------------
  // Slots

  /** The path chosen for a mode. */
  function SlotPath(s: WallpaperSettings, mode: AppearanceMode): Option<string> {
    if mode == Light then s.lightWallpaperPath else s.darkWallpaperPath
  }

  /** The wallpaper id recorded for a mode. */
  function SlotId(s: WallpaperSettings, mode: AppearanceMode): Option<string> {
    if mode == Light then s.lightWallpaperId else s.darkWallpaperId
  }

  function WithSlotPath(s: WallpaperSettings, mode: AppearanceMode, path: Option<string>): WallpaperSettings {
    if mode == Light then s.(lightWallpaperPath := path) else s.(darkWallpaperPath := path)
  }

  function WithSlotId(s: WallpaperSettings, mode: AppearanceMode, id: Option<string>): WallpaperSettings {
    if mode == Light then s.(lightWallpaperId := id) else s.(darkWallpaperId := id)
  }

  /** A mode's slot set to a path and an id, in that order. */
  function WithSlot(s: WallpaperSettings, mode: AppearanceMode, path: Option<string>, id: Option<string>): WallpaperSettings {
    WithSlotId(WithSlotPath(s, mode, path), mode, id)
  }

  function Other(mode: AppearanceMode): AppearanceMode {
    if mode == Light then Dark else Light
  }

  /** Setting a slot: the mode reads back what was set, the other mode and
      every other field are as they were, and setting a slot to what it
      holds changes nothing. */
  lemma SlotLaws(s: WallpaperSettings, mode: AppearanceMode, path: Option<string>, id: Option<string>)
    ensures SlotPath(WithSlot(s, mode, path, id), mode) == path
    ensures SlotId(WithSlot(s, mode, path, id), mode) == id
    ensures SlotPath(WithSlot(s, mode, path, id), Other(mode)) == SlotPath(s, Other(mode))
    ensures SlotId(WithSlot(s, mode, path, id), Other(mode)) == SlotId(s, Other(mode))
    ensures WithSlot(s, mode, path, id).autoSwitchEnabled == s.autoSwitchEnabled
    ensures WithSlot(s, mode, path, id).apiKey == s.apiKey
    ensures WithSlot(s, mode, path, id).favorites == s.favorites
    ensures WithSlot(s, mode, path, id).localFavorites == s.localFavorites
    ensures WithSlot(s, mode, SlotPath(s, mode), SlotId(s, mode)) == s
  {
  }

  // ---------------------------------------------------------------------------
  // Files and the desktop

  /** The downloaded file's name: the id, a dot, and the last non-empty
      "/"-separated piece of the MIME type, or "jpg" when there is none. */
  function FileName(id: string, fileType: string): string {
    id + "." + LastPiece(fileType, '/').GetOr("jpg")
  }

  /** A MIME type "kind/sub" names the file "id.sub". */
  lemma FileNameOfMimeType(id: string, kind: string, sub: string)
    requires '/' !in kind && '/' !in sub && sub != ""
    ensures FileName(id, kind + "/" + sub) == id + "." + sub
  {
    SplitAllAppendPiece(kind, sub, '/');
    var pieces := SplitAll(kind, '/') + [sub];
    assert pieces[..|pieces| - 1] == SplitAll(kind, '/');
    assert Split(kind + "/" + sub, '/') == NonEmpty(SplitAll(kind, '/')) + [sub];
  }

  /** The extension falls back to "jpg" exactly when the type is nothing but
      slashes; otherwise it is a non-empty piece without a slash. */
  lemma FileNameExtension(id: string, fileType: string)
    ensures |FileName(id, fileType)| > |id| && FileName(id, fileType)[..|id|] == id
    ensures FileName(id, fileType)[|id|] == '.'
    ensures (forall i :: 0 <= i < |fileType| ==> fileType[i] == '/') ==> FileName(id, fileType) == id + ".jpg"
    ensures (exists i :: 0 <= i < |fileType| && fileType[i] != '/') ==>
      (var ext := FileName(id, fileType)[|id| + 1..]; ext != "" && '/' !in ext && Some(ext) == LastPiece(fileType, '/'))
  {
    LastPieceNoneIff(fileType, '/');
    var name := FileName(id, fileType);
    assert name[|id| + 1..] == LastPiece(fileType, '/').GetOr("jpg");
  }

  /** The path `applyWallpaperForCurrentAppearance` puts on the desktop, if
      any: the slot of the appearance, when set and present on disk. */
  function WallpaperToApply(s: WallpaperSettings, appearance: AppearanceMode, files: map<string, Bytes>): Option<string> {
    var path := if appearance == Dark then s.darkWallpaperPath else s.lightWallpaperPath;
    if path.Some? && path.value in files then path else None
  }

  /** The dark slot is used exactly in dark appearance, and nothing is applied
      when that slot is empty or its file is missing. */
  lemma WallpaperToApplyUsesSlot(s: WallpaperSettings, appearance: AppearanceMode, files: map<string, Bytes>)
    ensures WallpaperToApply(s, appearance, files).Some? <==>
      SlotPath(s, appearance).Some? && SlotPath(s, appearance).value in files
    ensures WallpaperToApply(s, appearance, files).Some? ==> WallpaperToApply(s, appearance, files) == SlotPath(s, appearance)
    ensures WallpaperToApply(s, Dark, files).Some? ==> WallpaperToApply(s, Dark, files) == s.darkWallpaperPath
    ensures WallpaperToApply(s, Light, files).Some? ==> WallpaperToApply(s, Light, files) == s.lightWallpaperPath
  {
  }

  function AsList(path: Option<string>): seq<string> {
    if path.Some? then [path.value] else []
  }

  // ---------------------------------------------------------------------------
  // The manager

  class WallpaperManager {
    var settings: WallpaperSettings
    var currentAppearance: AppearanceMode
    /** The wallpaper directory under Application Support. */
    const directory: string
    const disk: Disk
    /** Every path handed to `setDesktopImageURL`, once per call. */
    ghost var applied: seq<string>
    /** The settings written to the user defaults, one entry per `didSet`. */
    ghost var saved: seq<WallpaperSettings>

    /** Favorite ids are distinct and local favorites have distinct paths;
        every operation keeps both. */
    predicate Valid()
      reads this
    {
      NoDuplicates(settings.favorites) && PathsUnique(settings.localFavorites)
    }

    /** `init()`: the stored settings when they decode, the defaults
        otherwise; the appearance from the `AppleInterfaceStyle` default.
        Assignments in an initialiser do not fire `didSet`. */
    constructor(directory: string, disk: Disk, stored: Option<Bytes>,
                decode: Bytes -> Option<WallpaperSettings>, interfaceStyle: Option<string>)
      ensures stored.Some? && decode(stored.value).Some? ==> settings == decode(stored.value).value
      ensures stored.None? || decode(stored.value).None? ==> settings == DefaultSettings
      ensures currentAppearance == DetectAppearance(interfaceStyle)
      ensures this.directory == directory && this.disk == disk
      ensures applied == [] && saved == []
      ensures stored.None? || decode(stored.value).None? ==> Valid()
    {
      this.directory := directory;
      this.disk := disk;
      if stored.Some? && decode(stored.value).Some? {
        settings := decode(stored.value).value;
      } else {
        settings := DefaultSettings;
      }
      currentAppearance := DetectAppearance(interfaceStyle);
      applied := [];
      saved := [];
    }

    /** One mutation of `settings`, which its `didSet` persists. */
    method Update(s: WallpaperSettings)
      modifies this
      ensures settings == s && saved == old(saved) + [s]
      ensures currentAppearance == old(currentAppearance) && applied == old(applied)
    {
      settings := s;
      saved := saved + [s];
    }

    /** `isFavorite(_:)`. */
    predicate IsFavorite(id: string)
      reads this
    {
      id in settings.favorites
    }

    /** `toggleFavorite(_:)`. */
    method ToggleFavorite(id: string)
      modifies this
      ensures settings == old(settings).(favorites := Toggled(old(settings.favorites), id))
      ensures saved == old(saved) + [settings]
      ensures currentAppearance == old(currentAppearance) && applied == old(applied)
      ensures !old(IsFavorite(id)) ==> settings.favorites == old(settings.favorites) + [id]
      ensures old(Valid()) ==> Valid() && (IsFavorite(id) <==> !old(IsFavorite(id)))
    {
      ghost var before := settings;
      var index := FirstIndex(settings.favorites, id);
      if index.Some? {
        Update(settings.(favorites := settings.favorites[..index.value] + settings.favorites[index.value + 1..]));
      } else {
        Update(settings.(favorites := settings.favorites + [id]));
      }
      if NoDuplicates(before.favorites) {
        ToggleKeepsDistinct(before.favorites, id);
        ToggleFlips(before.favorites, id);
      }
    }

    /** `addLocalFavorite(path:)`; the UUID, the clock, the image probe and
        the size attribute of the new entry are parameters. */
    method AddLocalFavorite(path: string, uuid: string, now: int, image: Option<ImageProbe>, sizeAttribute: Option<int>)
      modifies this
      ensures settings == old(settings).(localFavorites :=
        WithLocal(old(settings.localFavorites), NewLocalWallpaper(path, uuid, now, image, sizeAttribute)))
      ensures HasPath(old(settings.localFavorites), path) ==> saved == old(saved)
      ensures !HasPath(old(settings.localFavorites), path) ==> saved == old(saved) + [settings]
      ensures currentAppearance == old(currentAppearance) && applied == old(applied)
      ensures old(Valid()) ==> Valid()
    {
      if HasPath(settings.localFavorites, path) {
        return;
      }
      var local := NewLocalWallpaper(path, uuid, now, image, sizeAttribute);
      ghost var before := settings.localFavorites;
      Update(settings.(localFavorites := settings.localFavorites + [local]));
      if PathsUnique(before) {
        WithLocalKeepsPathsUnique(before, local);
      }
    }

    /** `removeLocalFavorite(_:)`: `removeAll` fires `didSet` even when it
        removes nothing. */
    method RemoveLocalFavorite(w: LocalWallpaper)
      modifies this
      ensures settings == old(settings).(localFavorites := WithoutId(old(settings.localFavorites), w.id))
      ensures saved == old(saved) + [settings]
      ensures currentAppearance == old(currentAppearance) && applied == old(applied)
      ensures old(Valid()) ==> Valid()
    {
      ghost var before := settings.localFavorites;
      Update(settings.(localFavorites := WithoutId(settings.localFavorites, w.id)));
      if PathsUnique(before) {
        WithoutIdKeepsPathsUnique(before, w.id);
      }
    }

    /** `clearWallpaper(forMode:)`: the path, then the id, each persisted. */
    method ClearWallpaper(mode: AppearanceMode)
      modifies this
      ensures settings == WithSlot(old(settings), mode, None, None)
      ensures saved == old(saved) + [WithSlotPath(old(settings), mode, None), settings]
      ensures currentAppearance == old(currentAppearance) && applied == old(applied)
      ensures old(Valid()) ==> Valid()
    {
      Update(WithSlotPath(settings, mode, None));
      Update(WithSlotId(settings, mode, None));
    }

    /** Sets a mode's slot, path first, then puts the path on the desktop if
        the mode is the current appearance. */
    method SetSlotAndApply(mode: AppearanceMode, path: string, id: string)
      modifies this
      ensures settings == WithSlot(old(settings), mode, Some(path), Some(id))
      ensures saved == old(saved) + [WithSlotPath(old(settings), mode, Some(path)), settings]
      ensures currentAppearance == old(currentAppearance)
      ensures applied == old(applied) + (if currentAppearance == mode then [path] else [])
    {
      Update(WithSlotPath(settings, mode, Some(path)));
      Update(WithSlotId(settings, mode, Some(id)));
      if currentAppearance == mode {
        applied := applied + [path];
      }
    }

    /** `downloadAndSetWallpaper(wallpaper:forMode:)`: the download oracles
        are those of `DownloadWallpaper`, consulted only when the file is
        not already in the wallpaper directory. */
    method DownloadAndSetWallpaper(wallpaper: WallpaperItem, mode: AppearanceMode, parsesUrl: bool,
                                   transfer: Result<Delivery, string>,
                                   removeFault: Option<string>, moveFault: Option<string>)
      returns (err: Option<Failure>)
      modifies this, disk
      ensures var destination := directory + "/" + FileName(wallpaper.id, wallpaper.fileType);
        && (destination in old(disk.files) ==> err.None? && disk.files == old(disk.files))
        && (destination !in old(disk.files) ==>
              (err.None? <==> parsesUrl && transfer.Success? && transfer.value.response.Http?
                              && IsSuccessStatus(transfer.value.response.statusCode) && moveFault.None?))
        && (err.Some? ==> disk.files == old(disk.files)
                          && settings == old(settings) && saved == old(saved) && applied == old(applied))
        && (err.None? ==> destination in disk.files
                          && settings == WithSlot(old(settings), mode, Some(destination), Some(wallpaper.id))
                          && saved == old(saved) + [WithSlotPath(old(settings), mode, Some(destination)), settings]
                          && applied == old(applied) + (if old(currentAppearance) == mode then [destination] else []))
      ensures err.None? && old(disk.files) != disk.files ==>
        disk.files == old(disk.files)[directory + "/" + FileName(wallpaper.id, wallpaper.fileType) := transfer.value.body]
      ensures currentAppearance == old(currentAppearance)
      ensures old(Valid()) ==> Valid()
    {
      var destination := directory + "/" + FileName(wallpaper.id, wallpaper.fileType);
      if !disk.Exists(destination) {
        err := DownloadWallpaper(disk, wallpaper.path, parsesUrl, transfer, destination, removeFault, moveFault);
        if err.Some? {
          return;
        }
      }
      err := None;
      SetSlotAndApply(mode, destination, wallpaper.id);
    }

    /** `setLocalWallpaper(wallpaper:forMode:)`: the id recorded is
        "local:" followed by the entry's id. */
    method SetLocalWallpaper(wallpaper: LocalWallpaper, mode: AppearanceMode)
      modifies this
      ensures settings == WithSlot(old(settings), mode, Some(wallpaper.path), Some("local:" + wallpaper.id))
      ensures saved == old(saved) + [WithSlotPath(old(settings), mode, Some(wallpaper.path)), settings]
      ensures currentAppearance == old(currentAppearance)
      ensures applied == old(applied) + (if currentAppearance == mode then [wallpaper.path] else [])
      ensures old(Valid()) ==> Valid()
    {
      SetSlotAndApply(mode, wallpaper.path, "local:" + wallpaper.id);
    }

    /** `applyWallpaperForCurrentAppearance()`. */
    method ApplyWallpaperForCurrentAppearance()
      modifies this
      ensures applied == old(applied) + AsList(WallpaperToApply(settings, currentAppearance, disk.files))
      ensures settings == old(settings) && saved == old(saved) && currentAppearance == old(currentAppearance)
    {
      var path := if currentAppearance == Dark then settings.darkWallpaperPath else settings.lightWallpaperPath;
      if path.None? {
        return;
      }
      if !disk.Exists(path.value) {
        return;
      }
      applied := applied + [path.value];
    }

    /** `handleAppearanceChange()`, given the new `AppleInterfaceStyle`; the
        task it starts is taken to run to completion at once. */
    method HandleAppearanceChange(interfaceStyle: Option<string>)
      modifies this
      ensures currentAppearance == DetectAppearance(interfaceStyle)
      ensures settings == old(settings) && saved == old(saved)
      ensures applied == old(applied) +
        (if settings.autoSwitchEnabled then AsList(WallpaperToApply(settings, currentAppearance, disk.files)) else [])
    {
      currentAppearance := DetectAppearance(interfaceStyle);
      if !settings.autoSwitchEnabled {
        return;
      }
      ApplyWallpaperForCurrentAppearance();
    }
  }
}
