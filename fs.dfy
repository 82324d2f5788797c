/** The part of the file system the app touches: regular files by path. */
module FileSystem {
  import opened Wrappers

  /** File contents. */
  type Bytes = seq<bv8>

  /** `FileManager.default`, reduced to a map from path to contents. A call
      that Foundation may refuse for reasons outside the model (permissions, a
      full disk) takes a `fault` that, when set, is the error's description;
      the refusals the model does decide carry the Cocoa error name. */
  class Disk {
    var files: map<string, Bytes>

    constructor(initial: map<string, Bytes>)
      ensures files == initial
    {
      files := initial;
    }

    /** `fileExists(atPath:)`. */
    predicate Exists(path: string)
      reads this
    {
      path in files
    }

    /** `removeItem(at:)`: fails on a missing path or on a fault, and then
        leaves the disk alone. */
    method RemoveItem(path: string, fault: Option<string>) returns (err: Option<string>)
      modifies this
      ensures err.None? <==> fault.None? && path in old(files)
      ensures fault.Some? ==> err == fault
      ensures err.None? ==> files == old(files) - {path}
      ensures err.Some? ==> files == old(files)
    {
      if fault.Some? {
        return Some(fault.value);
      }
      if path !in files {
        return Some("NSFileNoSuchFileError");
      }
      files := files - {path};
      err := None;
    }

    /** `moveItem(at:to:)` of a downloaded body: fails when the destination
        already exists or on a fault, and then leaves the disk alone. */
    method MoveItem(body: Bytes, destination: string, fault: Option<string>) returns (err: Option<string>)
      modifies this
      ensures err.None? <==> fault.None? && destination !in old(files)
      ensures fault.Some? ==> err == fault
      ensures err.None? ==> files == old(files)[destination := body]
      ensures err.Some? ==> files == old(files)
    {
      if fault.Some? {
        return Some(fault.value);
      }
      if destination in files {
        return Some("NSFileWriteFileExistsError");
      }
      files := files[destination := body];
      err := None;
    }
  }
}
