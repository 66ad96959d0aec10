/** `CsvCreatorService`: the CSV writer of `CsvService`, preceded by the creation of the
    seller's directory `./out/<name>` when it does not exist yet. */
module CsvCreatorService {
  import opened Wrappers
  import opened Text
  import opened Model
  import opened FileStore
  import opened CsvService

  /** `create(seller)` on a disk: `Files.createDirectory` runs only when nothing exists at
      the seller's directory, and its failure aborts the call before any file is opened. */
  function CreatorCreateOn(d: Disk, name: string, ps: seq<CsvProduct>, millis: int): (Result<()>, Disk)
  {
    var dir := SellerDir(name);
    if Exists(d, dir) then CreateOn(d, name, ps, millis)
    else
      var c := CreateDirectoryOn(d, dir);
      if c.0.Err? then c else CreateOn(c.1, name, ps, millis)
  }

  method Create(fs: FileSystem, name: string, ps: seq<CsvProduct>, millis: int) returns (r: Result<()>)
    modifies fs
    ensures (r, fs.State()) == CreatorCreateOn(old(fs.State()), name, ps, millis)
  {
    var dir := BASE_DIR + "/" + name;
    if !fs.PathExists(dir) {
      r := fs.CreateDirectory(dir);
      if r.Err? {
        return;
      }
    }
    r := CsvService.Create(fs, name, ps, millis);
  }

  /** An existing directory is left alone: the call then does exactly what
      `CsvService.create` does. */
  lemma ExistingDirUntouched(d: Disk, name: string, ps: seq<CsvProduct>, millis: int)
    requires '/' !in name && SellerDir(name) in d.dirs
    ensures CreatorCreateOn(d, name, ps, millis) == CreateOn(d, name, ps, millis)
    ensures CreatorCreateOn(d, name, ps, millis).1.dirs == d.dirs
  {
    CreateEffects(d, name, ps, millis);
  }

  /** A missing directory is created inside `./out`, after which the CSV file can be opened
      in it: for a handle without '/', with `./out` present, nothing at the seller's
      directory and no I/O errors, the directory exists afterwards and the file holds the
      CSV text; the call succeeds exactly when every product has data. */
  lemma MissingDirCreated(d: Disk, name: string, ps: seq<CsvProduct>, millis: int)
    requires '/' !in name
    requires BASE_DIR in d.dirs
    requires !Exists(d, SellerDir(name)) && SellerDir(name) !in d.broken
    requires CsvPath(name, millis) !in d.dirs && CsvPath(name, millis) !in d.broken
    ensures var res := CreatorCreateOn(d, name, ps, millis);
      && res.1.dirs == d.dirs + {SellerDir(name)}
      && res.1.files == d.files[CsvPath(name, millis) := TextFile(CsvText(ps))]
      && (res.0.Ok? <==> AllPresent(ps))
  {
    var dir := SellerDir(name);
    SellerDirParent(name);
    var d1 := d.(dirs := d.dirs + {dir});
    assert CreateDirectoryOn(d, dir) == (Ok(()), d1);
    CsvPathParts(name, millis);
    assert CsvPath(name, millis) != dir;
    CreateEffects(d1, name, ps, millis);
  }
}
