/** The part of the file system the scraper touches: directories, the files written into
    them, and a fixed set of paths where every operation fails with an I/O error (a full
    disk, a missing permission). Paths are '/'-separated strings as the services build
    them; no normalisation takes place. */
module FileStore {
  import opened Wrappers
  import opened Text

  /** What a file holds: text written through a `FileWriter`, or an image that
      `ImageIO.write` encoded in the named format. */
  datatype Content = TextFile(text: string) | ImageFile(image: seq<bv8>, format: string)

  /** A snapshot of the file system. */
  datatype Disk = Disk(dirs: set<string>, files: map<string, Content>, broken: set<string>)

  /** The directory a path lies in: everything before its last '/', or "." for a bare
      name, which lies in the working directory. */
  function Parent(path: string): (r: string)
    ensures '/' in path ==> r + "/" + AfterLast(path, '/') == path
  {
    if '/' in path then
      var name := AfterLast(path, '/');
      assert path == path[..|path| - |name| - 1] + [path[|path| - |name| - 1]] + name;
      path[..|path| - |name| - 1]
    else "."
  }

  /** The working directory always exists; any other parent must have been created. */
  predicate ParentPresent(d: Disk, path: string)
  {
    Parent(path) == "." || Parent(path) in d.dirs
  }

  predicate Exists(d: Disk, path: string)
  {
    path in d.dirs || path in d.files
  }

  /** `Files.createDirectory`: fails when the path already exists, when its parent
      directory is missing, or on an I/O error; otherwise adds exactly that directory. */
  function CreateDirectoryOn(d: Disk, path: string): (r: (Result<()>, Disk))
    ensures r.0.Ok? <==> !Exists(d, path) && ParentPresent(d, path) && path !in d.broken
    ensures r.1 == if r.0.Ok? then d.(dirs := d.dirs + {path}) else d
  {
    if path in d.broken || Exists(d, path) || !ParentPresent(d, path) then (Err(IOException(path)), d)
    else (Ok(()), d.(dirs := d.dirs + {path}))
  }

  /** The directories above a path, outermost first: the parent of the parent ..., up to
      the parent, stopping at the first one without '/'. */
  function Ancestors(path: string): (r: seq<string>)
    ensures forall i :: 0 <= i < |r| ==> |r[i]| < |path|
    decreases |path|
  {
    if '/' in path then
      var up := Parent(path);
      assert |up| < |path| by { assert up + "/" + AfterLast(path, '/') == path; }
      Ancestors(up) + [up]
    else []
  }

  /** The path with every directory above it, outermost first. */
  function Lineage(path: string): seq<string>
  {
    Ancestors(path) + [path]
  }

  /** Each entry of a lineage lies directly in the one before it, and the first lies in the
      working directory. */
  lemma {:induction false} LineageNested(path: string)
    ensures var l := Lineage(path);
      && Parent(l[0]) == "."
      && (forall i :: 0 < i < |l| ==> Parent(l[i]) == l[i - 1])
    decreases |path|
  {
    if '/' in path {
      var up := Parent(path);
      assert up + "/" + AfterLast(path, '/') == path;
      LineageNested(up);
      assert Lineage(path) == Lineage(up) + [path];
    }
  }

  /** Whether `Files.createDirectories` can make `path`: no file stands at the path or above
      it, and neither the path nor any directory it has to create meets an I/O error. */
  predicate CanCreateAll(d: Disk, path: string)
  {
    && path !in d.broken
    && forall p :: p in Lineage(path) ==> p !in d.files && (p == "." || p in d.dirs || p !in d.broken)
  }

  /** An entry of the lineage that stops `createDirectories`: a file stands there, or an
      I/O error meets the path itself or a directory that has to be created. */
  predicate Blocks(d: Disk, path: string, p: string)
  {
    p in d.files || (p in d.broken && (p == path || (p != "." && p !in d.dirs)))
  }

  /** The position of the first entry of `l` that blocks, or `|l|` when none does. */
  function FirstBlocked(d: Disk, path: string, l: seq<string>): (i: nat)
    ensures i <= |l|
    ensures forall k :: 0 <= k < i ==> !Blocks(d, path, l[k])
    ensures i < |l| ==> Blocks(d, path, l[i])
  {
    if l == [] || Blocks(d, path, l[0]) then 0
    else
      var i := 1 + FirstBlocked(d, path, l[1..]);
      assert forall k :: 1 <= k < i ==> l[k] == l[1..][k - 1];
      i
  }

  /** `Files.createDirectories`: the directories of the lineage are created in turn, the
      outermost first, and an existing directory is left as it is. The first entry that
      blocks fails the call, and the directories created before it stay. */
  function CreateDirectoriesOn(d: Disk, path: string): (r: (Result<()>, Disk))
    ensures r.0.Ok? <==> CanCreateAll(d, path)
    ensures r.0.Err? ==> r.0 == Err(IOException(path))
    ensures r.1.files == d.files && r.1.broken == d.broken && d.dirs <= r.1.dirs
    ensures r.0.Ok? ==> path in r.1.dirs
  {
    var l := Lineage(path);
    var i := FirstBlocked(d, path, l);
    UnblockedIffCanCreateAll(d, path);
    assert i == |l| ==> l[..i][|l| - 1] == path;
    var made := set p | p in l[..i] && (p != "." || p == path);
    (if i == |l| then Ok(()) else Err(IOException(path)), d.(dirs := d.dirs + made))
  }

  /** `createDirectories` stops at the first entry of the lineage that blocks: it succeeds
      exactly when none does, every directory before that entry is there afterwards, and
      every directory it made lies before that entry. */
  lemma CreateDirectoriesStopsAtBlock(d: Disk, path: string)
    ensures var r := CreateDirectoriesOn(d, path);
      var l := Lineage(path); var i := FirstBlocked(d, path, l);
      && (r.0.Ok? <==> i == |l|)
      && (forall k :: 0 <= k < i && (l[k] != "." || l[k] == path) ==> l[k] in r.1.dirs)
      && (forall p :: p in r.1.dirs && p !in d.dirs ==> p in l[..i] && (p != "." || p == path))
  {
    var l := Lineage(path);
    var i := FirstBlocked(d, path, l);
    forall k | 0 <= k < i
      ensures l[k] in l[..i]
    {
      assert l[..i][k] == l[k];
    }
  }

  /** No entry of the lineage blocks exactly when `createDirectories` can make the path. */
  lemma UnblockedIffCanCreateAll(d: Disk, path: string)
    ensures FirstBlocked(d, path, Lineage(path)) == |Lineage(path)| <==> CanCreateAll(d, path)
  {
    var l := Lineage(path);
    var i := FirstBlocked(d, path, l);
    assert l[|l| - 1] == path;
    if i == |l| {
      forall p | p in l
        ensures p !in d.files && (p == "." || p in d.dirs || p !in d.broken)
      {
        var k :| 0 <= k < |l| && l[k] == p;
        assert !Blocks(d, path, l[k]);
      }
      assert !Blocks(d, path, l[|l| - 1]);
    } else {
      assert Blocks(d, path, l[i]);
      assert l[i] in l;
    }
  }

  /** `createDirectories` makes only the path and directories above it, never the working
      directory above a path, and after a success the path and every directory above it are
      there. */
  lemma CreateDirectoriesMakesLineage(d: Disk, path: string)
    ensures var r := CreateDirectoriesOn(d, path);
      && (r.0.Ok? ==> path in r.1.dirs && forall p :: p in Ancestors(path) && p != "." ==> p in r.1.dirs)
      && (forall p :: p in r.1.dirs && p !in d.dirs ==> p == path || (p in Ancestors(path) && p != "."))
  {
    CreateDirectoriesStopsAtBlock(d, path);
    var r := CreateDirectoriesOn(d, path);
    var a := Ancestors(path);
    var l := Lineage(path);
    assert l == a + [path];
    MadeWithin(d.dirs, r.1.dirs, a, path, FirstBlocked(d, path, l));
  }

  /** The directories made from a lineage `a + [path]` up to position `i`, restated over the
      ancestors `a` and the path. */
  lemma MadeWithin(old_dirs: set<string>, dirs: set<string>, a: seq<string>, path: string, i: nat)
    requires i <= |a| + 1
    requires forall k :: (0 <= k < i && ((a + [path])[k] != "." || (a + [path])[k] == path)
      ==> (a + [path])[k] in dirs)
    requires forall p :: p in dirs && p !in old_dirs ==> p in (a + [path])[..i] && (p != "." || p == path)
    ensures i == |a| + 1 ==> path in dirs && forall p :: p in a && p != "." ==> p in dirs
    ensures forall p :: p in dirs && p !in old_dirs ==> p == path || (p in a && p != ".")
  {
    var l := a + [path];
    if i == |a| + 1 {
      assert l[|a|] == path;
      forall p | p in a && p != "."
        ensures p in dirs
      {
        var k :| 0 <= k < |a| && a[k] == p;
        assert l[k] == p;
      }
    }
    forall p | p in dirs && p !in old_dirs
      ensures p == path || (p in a && p != ".")
    {
      var k :| 0 <= k < i && l[..i][k] == p;
      if k < |a| {
        assert a[k] == p;
      }
    }
  }

  /** After a successful `createDirectories` every directory of the lineage is a directory
      that lies in a directory, the working directory being the outermost. */
  lemma CreateDirectoriesNested(d: Disk, path: string)
    requires CreateDirectoriesOn(d, path).0.Ok?
    ensures var d1 := CreateDirectoriesOn(d, path).1;
      forall p :: p in Lineage(path) ==> (p == "." || p in d1.dirs) && ParentPresent(d1, p)
  {
    var d1 := CreateDirectoriesOn(d, path).1;
    var l := Lineage(path);
    LineageNested(path);
    forall p | p in l
      ensures (p == "." || p in d1.dirs) && ParentPresent(d1, p)
    {
      var i :| 0 <= i < |l| && l[i] == p;
      if i == |l| - 1 {
        assert p == path;
      }
      if i > 0 {
        assert Parent(p) == l[i - 1];
        assert l[i - 1] in d1.dirs || l[i - 1] == ".";
      }
    }
  }

  /** The parent of `a/q`, for a last segment `q` without '/', is `a`. */
  lemma ParentAppend(a: string, q: string)
    requires '/' !in q
    ensures Parent(a + "/" + q) == a
    ensures a in Ancestors(a + "/" + q)
  {
    var path := a + "/" + q;
    assert path == a + ['/'] + q;
    AfterLastAppend(a, '/', q);
    assert path[..|path| - |q| - 1] == a;
  }

  /** A file at any directory above the path makes `createDirectories` fail. Directories
      above the file that were missing may have been made; on a disk where every directory
      above the file exists, as it does on a real file system, nothing changes. */
  lemma CreateDirectoriesBlockedByFile(d: Disk, path: string, p: string)
    requires p in Ancestors(path) && p in d.files
    ensures CreateDirectoriesOn(d, path).0 == Err(IOException(path))
    ensures (forall q :: q in Ancestors(p) ==> q == "." || q in d.dirs)
      ==> CreateDirectoriesOn(d, path).1 == d
  {
    var l := Lineage(path);
    var a := Ancestors(path);
    var j :| 0 <= j < |a| && a[j] == p;
    assert l[j] == p;
    var i := FirstBlocked(d, path, l);
    assert Blocks(d, path, l[j]);
    if forall q :: q in Ancestors(p) ==> q == "." || q in d.dirs {
      LineagePrefix(path, j);
      CreateDirectoriesStopsAtBlock(d, path);
      var r := CreateDirectoriesOn(d, path);
      MadeNothingNew(d, r.1, l, i, j, path);
    }
  }

  /** Directories made only from entries before `j` that were already there (or are the
      working directory, which is never made) change nothing. */
  lemma MadeNothingNew(d: Disk, d1: Disk, l: seq<string>, i: nat, j: nat, path: string)
    requires i <= j < |l| && path == l[|l| - 1]
    requires forall k :: 0 <= k < |l| - 1 ==> |l[k]| < |path|
    requires forall q :: q in l[..j] ==> q == "." || q in d.dirs
    requires forall q :: q in d1.dirs && q !in d.dirs ==> q in l[..i] && (q != "." || q == path)
    requires d.dirs <= d1.dirs && d1.files == d.files && d1.broken == d.broken
    ensures d1 == d
  {
    forall q | q in d1.dirs
      ensures q in d.dirs
    {
      if q in l[..i] {
        var k :| 0 <= k < i && l[..i][k] == q;
        assert l[k] == q && l[..j][k] == q;
      }
    }
    assert d1.dirs == d.dirs;
  }

  /** A failure part-way keeps what was made before it: on an empty disk with an I/O error
      at `top/s`, making `top/s/leaf` fails, yet `top` has been created (with `top` being
      `./out`, the call for `./out/s/0` leaves `./out` behind). */
  lemma CreateDirectoriesKeepsPartial(top: string, s: string, leaf: string)
    requires '/' !in s && '/' !in leaf && top != "."
    ensures var mid := top + "/" + s;
      var d := Disk({}, map[], {mid});
      var r := CreateDirectoriesOn(d, mid + "/" + leaf);
      && r.0 == Err(IOException(mid + "/" + leaf))
      && top in r.1.dirs && mid !in r.1.dirs
  {
    var mid := top + "/" + s;
    var path := mid + "/" + leaf;
    var d := Disk({}, map[], {mid});
    LineageAppend(top, s);
    LineageAppend(mid, leaf);
    var l := Lineage(path);
    assert l == Lineage(top) + [mid, path];
    assert |mid| > |top| && mid != ".";
    LineageShorter(top, |mid|);
    CreateDirectoriesStopsAtBlock(d, path);
    StopsAtBrokenMiddle(d, path, top, mid, l, Lineage(top));
  }

  /** Every entry of the lineage of `top` is at most as long as `top`. */
  lemma LineageShorter(top: string, n: nat)
    requires |top| < n
    ensures forall k :: 0 <= k < |Lineage(top)| ==> |Lineage(top)[k]| < n
  {
    var a := Ancestors(top);
    assert Lineage(top) == a + [top];
    forall k | 0 <= k < |Lineage(top)|
      ensures |Lineage(top)[k]| < n
    {
      if k < |a| {
        assert Lineage(top)[k] == a[k];
      }
    }
  }

  /** The lineage of a path `./x` directly in the working directory has only the working
      directory above it. */
  lemma TopLevelAncestors(x: string)
    requires '/' !in x
    ensures Ancestors("." + "/" + x) == ["."]
  {
    ParentAppend(".", x);
    assert '/' !in ".";
    assert Ancestors(".") == [];
    assert ("." + "/" + x)[1] == '/';
  }

  /** On a disk whose only entry is an I/O error at `mid`, a lineage `up + [mid, path]`, all
      of whose `up` entries are shorter than `mid`, stops at `mid`. */
  lemma StopsAtBrokenMiddle(d: Disk, path: string, top: string, mid: string, l: seq<string>, up: seq<string>)
    requires d == Disk({}, map[], {mid}) && l == up + [mid, path]
    requires |up| > 0 && up[|up| - 1] == top && top != "." && mid != "."
    requires forall k :: 0 <= k < |up| ==> |up[k]| < |mid|
    ensures FirstBlocked(d, path, l) == |up|
    ensures l[|up| - 1] == top && mid !in l[..|up|]
  {
    forall k | 0 <= k < |up|
      ensures !Blocks(d, path, l[k])
    {
      assert l[k] == up[k];
    }
    assert l[|up|] == mid;
    assert Blocks(d, path, l[|up|]);
    assert l[..|up|] == up;
  }

  /** The lineage of `a/q`, for a last segment `q` without '/', is that of `a` followed by it. */
  lemma LineageAppend(a: string, q: string)
    requires '/' !in q
    ensures Lineage(a + "/" + q) == Lineage(a) + [a + "/" + q]
  {
    var path := a + "/" + q;
    ParentAppend(a, q);
    assert path[|a|] == '/';
  }

  /** The entries of a lineage before position `j` are the ancestors of the entry at `j`. */
  lemma {:induction false} LineagePrefix(path: string, j: nat)
    requires j < |Lineage(path)|
    ensures Lineage(path)[..j] == Ancestors(Lineage(path)[j])
    decreases |path|
  {
    var l := Lineage(path);
    if j == |l| - 1 {
      assert l[..j] == Ancestors(path);
    } else {
      var up := Parent(path);
      assert up + "/" + AfterLast(path, '/') == path;
      assert l == Lineage(up) + [path];
      LineagePrefix(up, j);
      assert l[..j] == Lineage(up)[..j];
    }
  }

  /** Writing a whole file (a `FileWriter` that is closed, or `ImageIO.write`): fails when the
      parent directory is missing, when a directory holds the path, or on an I/O error;
      otherwise the file holds exactly the new content, replacing any earlier one. */
  function WriteOn(d: Disk, path: string, c: Content): (r: (Result<()>, Disk))
    ensures r.0.Ok? <==> ParentPresent(d, path) && path !in d.dirs && path !in d.broken
    ensures r.1 == if r.0.Ok? then d.(files := d.files[path := c]) else d
  {
    if path in d.broken || path in d.dirs || !ParentPresent(d, path) then (Err(IOException(path)), d)
    else (Ok(()), d.(files := d.files[path := c]))
  }

  /** The guard `if (!Files.exists(p)) Files.createDirectory(p)` makes directory creation
      idempotent: once it succeeded, running it again changes nothing and succeeds. */
  lemma GuardedCreateIdempotent(d: Disk, path: string)
    requires CreateDirectoryOn(d, path).0.Ok?
    ensures var d1 := CreateDirectoryOn(d, path).1;
      Exists(d1, path) && !CreateDirectoryOn(d1, path).0.Ok?
  {
  }

  /** The file system the services run against. */
  class FileSystem {
    var dirs: set<string>
    var files: map<string, Content>
    const broken: set<string>

    function State(): Disk
      reads this
    {
      Disk(dirs, files, broken)
    }

    constructor (d: Disk)
      ensures State() == d
    {
      dirs, files, broken := d.dirs, d.files, d.broken;
    }

    predicate PathExists(path: string): (r: bool)
      reads this
      ensures r <==> path in dirs || path in files
    {
      Exists(State(), path)
    }

    method CreateDirectory(path: string) returns (r: Result<()>)
      modifies this
      ensures (r, State()) == CreateDirectoryOn(old(State()), path)
    {
      var res := CreateDirectoryOn(State(), path);
      r := res.0;
      dirs := res.1.dirs;
    }

    method CreateDirectories(path: string) returns (r: Result<()>)
      modifies this
      ensures (r, State()) == CreateDirectoriesOn(old(State()), path)
    {
      var res := CreateDirectoriesOn(State(), path);
      r := res.0;
      dirs := res.1.dirs;
    }

    method Write(path: string, c: Content) returns (r: Result<()>)
      modifies this
      ensures (r, State()) == WriteOn(old(State()), path, c)
    {
      var res := WriteOn(State(), path, c);
      r := res.0;
      files := res.1.files;
    }
  }
}
