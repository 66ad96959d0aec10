/** `App.run`: for every handle of the seller list, count the seller's products, then for each
    page of 50 find the seller's products, make the page's output directory, write the CSV
    and start the image job. An I/O or interruption error of one seller is logged and the
    next seller follows; any other exception ends the run. The callees whose signatures are
    not those of the services (the three-argument `findSellerBySellerName`, the two-argument
    `create`) are parameters. So is `count`: it only hands the handle to
    `fetchTotalNumberOfProducts` (`YARepository.FetchTotalNumberOfProducts`), and as a
    parameter `run` is proved for any count. The image jobs are recorded, not run. */
module App {
  import opened Wrappers
  import opened Text
  import opened Model
  import opened FileStore
  import CsvService
  import YAService

  /** Products per page. */
  const LIMIT: int := 50

  /** `./out/<seller>/<page>`, with the platform's separator `sep`. */
  function PageDir(sep: string, name: string, i: int): string
  {
    "." + sep + "out" + sep + name + sep + IntToDecimal(i)
  }

  /** The exceptions the per-seller `catch` handles. */
  predicate Caught(e: Exception)
  {
    e.IOException? || e.Interrupted?
  }

  /** What `run` asks of the services, in order. */
  datatype Call = Count(seller: string) | Find(seller: string, limit: int, offset: int)

  /** An image job started for a page: the seller found for it and its output directory. */
  datatype Job = Job(seller: Seller, dir: string)

  /** The services `run` calls: `count`, `findSellerBySellerName(name, limit, offset)` and the
      CSV writer `create(seller, dir)`; `sep` is the file separator. */
  datatype Env = Env(
    sep: string,
    count: string -> Result<int>,
    find: (string, int, int) -> Result<Seller>,
    createCsv: (Seller, string) -> Result<()>)

  // ----- The pages of one seller -----

  /** The state of one seller's processing: the disk, the jobs and calls so far, and the
      exception that ended it, if any. */
  datatype Progress = Progress(disk: Disk, jobs: seq<Job>, calls: seq<Call>, error: Option<Exception>)

  /** `if (!Files.exists(p)) Files.createDirectories(p)`. */
  function EnsureDir(d: Disk, dir: string): (r: (Result<()>, Disk))
    ensures Exists(d, dir) ==> r == (Ok(()), d)
    ensures !Exists(d, dir) ==> (r.0.Ok? <==> CanCreateAll(d, dir))
    ensures r.0.Ok? ==> Exists(r.1, dir)
    ensures r.1.files == d.files && r.1.broken == d.broken && d.dirs <= r.1.dirs
  {
    if Exists(d, dir) then (Ok(()), d) else CreateDirectoriesOn(d, dir)
  }

  /** Page `i`: find with limit 50 and offset `50 * i`, make `./out/<name>/<i>`, write the
      CSV and add the job; the first exception ends the seller. */
  function VisitPage(p: Progress, env: Env, name: string, i: int): Progress
  {
    if p.error.Some? then p
    else
      var calls := p.calls + [Find(name, LIMIT, LIMIT * i)];
      var found := env.find(name, LIMIT, LIMIT * i);
      if found.Err? then p.(calls := calls, error := Some(found.error))
      else
        var dir := PageDir(env.sep, found.value.name, i);
        var made := EnsureDir(p.disk, dir);
        if made.0.Err? then Progress(made.1, p.jobs, calls, Some(made.0.error))
        else
          var csv := env.createCsv(found.value, dir);
          if csv.Err? then Progress(made.1, p.jobs, calls, Some(csv.error))
          else Progress(made.1, p.jobs + [Job(found.value, dir)], calls, None)
  }

  /** Pages `0 .. n-1` in order. */
  function VisitPages(p: Progress, env: Env, name: string, n: nat): Progress
  {
    if n == 0 then p else VisitPage(VisitPages(p, env, name, n - 1), env, name, n - 1)
  }

  lemma {:induction false} VisitPagesStops(p: Progress, env: Env, name: string, i: nat, n: nat)
    requires i <= n && VisitPages(p, env, name, i).error.Some?
    ensures VisitPages(p, env, name, n) == VisitPages(p, env, name, i)
  {
    if i < n {
      VisitPagesStops(p, env, name, i, n - 1);
    }
  }

  /** One page: nothing happens after an error; otherwise the page's find is called, and a
      job is added exactly when the page raises nothing. */
  lemma VisitPageFacts(p: Progress, env: Env, name: string, i: int)
    ensures p.error.Some? ==> VisitPage(p, env, name, i) == p
    ensures p.error.None? ==>
      var q := VisitPage(p, env, name, i);
      && q.calls == p.calls + [Find(name, LIMIT, LIMIT * i)]
      && (q.error.None? ==>
            env.find(name, LIMIT, LIMIT * i).Ok?
            && q.jobs == p.jobs + [Job(env.find(name, LIMIT, LIMIT * i).value,
                                       PageDir(env.sep, env.find(name, LIMIT, LIMIT * i).value.name, i))])
      && (q.error.Some? ==> q.jobs == p.jobs)
  {
  }

  /** With '/' as separator, `./out` lies above every page directory of a seller whose name
      has no '/'. */
  lemma OutAbovePageDir(name: string, i: int)
    requires '/' !in name
    ensures "./out" in Ancestors(PageDir("/", name, i))
  {
    var n := IntToDecimal(i);
    DecimalLacks(i, '/');
    assert PageDir("/", name, i) == ("./out" + "/" + name) + "/" + n;
    ParentAppend("./out" + "/" + name, n);
    ParentAppend("./out", name);
  }

  /** Only the working directory lies above `./out`. */
  lemma OutAncestors()
    ensures Ancestors("./out") == ["."]
  {
    TopLevelAncestors("out");
    assert "." + "/" + "out" == "./out";
  }

  /** A file standing at `./out` fails the page whose directory is missing: the
      `IOException` of `createDirectories` ends the seller and no job is added. */
  lemma FileAtOutFailsPage(p: Progress, env: Env, name: string, i: int)
    requires p.error.None? && env.sep == "/"
    requires env.find(name, LIMIT, LIMIT * i).Ok?
    requires '/' !in env.find(name, LIMIT, LIMIT * i).value.name
    requires "./out" in p.disk.files
    requires !Exists(p.disk, PageDir("/", env.find(name, LIMIT, LIMIT * i).value.name, i))
    ensures var q := VisitPage(p, env, name, i);
      && q.error == Some(IOException(PageDir("/", env.find(name, LIMIT, LIMIT * i).value.name, i)))
      && q.jobs == p.jobs && q.disk == p.disk
  {
    var found := env.find(name, LIMIT, LIMIT * i).value;
    var dir := PageDir("/", found.name, i);
    OutAbovePageDir(found.name, i);
    OutAncestors();
    CreateDirectoriesBlockedByFile(p.disk, dir, "./out");
    FailedDirEndsPage(p, env, name, i, IOException(dir));
  }

  /** When making the page directory fails and leaves the disk as it was, the page ends the
      seller with that exception and adds no job. */
  lemma FailedDirEndsPage(p: Progress, env: Env, name: string, i: int, e: Exception)
    requires p.error.None? && env.find(name, LIMIT, LIMIT * i).Ok?
    requires EnsureDir(p.disk, PageDir(env.sep, env.find(name, LIMIT, LIMIT * i).value.name, i)) == (Err(e), p.disk)
    ensures var q := VisitPage(p, env, name, i);
      q.error == Some(e) && q.jobs == p.jobs && q.disk == p.disk
  {
  }

  /** The find calls for pages `0 .. m-1`. */
  function PageCalls(name: string, m: nat): (r: seq<Call>)
    ensures |r| == m
    ensures forall i :: 0 <= i < m ==> r[i] == Find(name, LIMIT, LIMIT * i)
  {
    if m == 0 then [] else PageCalls(name, m - 1) + [Find(name, LIMIT, LIMIT * (m - 1))]
  }

  /** Page `i` is found with limit 50 and offset `50 * i`, pages in increasing order; all `n`
      pages are found when the seller succeeds, and on failure the pages up to the failing
      one. */
  lemma {:induction false} PagesCalls(p: Progress, env: Env, name: string, n: nat)
    requires p.error.None?
    ensures var q := VisitPages(p, env, name, n);
      && |p.calls| <= |q.calls| <= |p.calls| + n
      && q.calls == p.calls + PageCalls(name, |q.calls| - |p.calls|)
      && (q.error.None? ==> |q.calls| == |p.calls| + n)
      && (q.error.Some? ==> |q.calls| > |p.calls|)
  {
    if n > 0 {
      PagesCalls(p, env, name, n - 1);
      var q' := VisitPages(p, env, name, n - 1);
      VisitPageFacts(q', env, name, n - 1);
      if q'.error.None? {
        assert PageCalls(name, n) == PageCalls(name, n - 1) + [Find(name, LIMIT, LIMIT * (n - 1))];
      }
    }
  }

  /** One job per completed page: every page on success, every page but the failing one on
      failure. The job of page `k` holds the seller found for page `k` and the directory
      `./out/<seller>/<k>`; earlier jobs stay. */
  lemma {:induction false} PagesJobs(p: Progress, env: Env, name: string, n: nat)
    requires p.error.None?
    ensures var q := VisitPages(p, env, name, n);
      && |q.jobs| == |p.jobs| + (|q.calls| - |p.calls|) - (if q.error.Some? then 1 else 0)
      && p.jobs <= q.jobs
      && (forall k :: |p.jobs| <= k < |q.jobs| ==>
            env.find(name, LIMIT, LIMIT * (k - |p.jobs|)) == Ok(q.jobs[k].seller)
            && q.jobs[k].dir == PageDir(env.sep, q.jobs[k].seller.name, k - |p.jobs|))
  {
    if n > 0 {
      var q' := VisitPages(p, env, name, n - 1);
      var q := VisitPage(q', env, name, n - 1);
      assert VisitPages(p, env, name, n) == q;
      PagesJobs(p, env, name, n - 1);
      PagesCalls(p, env, name, n - 1);
      VisitPageFacts(q', env, name, n - 1);
      if q'.error.None? {
        assert |q'.jobs| == |p.jobs| + (n - 1);
        assert |q.calls| == |q'.calls| + 1;
        forall k | |p.jobs| <= k < |q.jobs|
          ensures env.find(name, LIMIT, LIMIT * (k - |p.jobs|)) == Ok(q.jobs[k].seller)
          ensures q.jobs[k].dir == PageDir(env.sep, q.jobs[k].seller.name, k - |p.jobs|)
        {
          if k < |q'.jobs| {
            assert q.jobs[k] == q'.jobs[k];
          } else {
            assert k - |p.jobs| == n - 1;
          }
        }
      }
    }
  }

  /** One page on the disk: directories are only added, files are untouched, and every
      job's directory exists afterwards. */
  lemma VisitPageDisk(p: Progress, env: Env, name: string, i: int)
    requires forall j :: j in p.jobs ==> Exists(p.disk, j.dir)
    ensures var q := VisitPage(p, env, name, i);
      && p.disk.dirs <= q.disk.dirs && q.disk.files == p.disk.files && q.disk.broken == p.disk.broken
      && (forall j :: j in q.jobs ==> Exists(q.disk, j.dir))
  {
    if p.error.None? {
      var found := env.find(name, LIMIT, LIMIT * i);
      if found.Ok? {
        var dir := PageDir(env.sep, found.value.name, i);
        var made := EnsureDir(p.disk, dir);
        var q := VisitPage(p, env, name, i);
        assert q.disk == made.1;
        assert forall j :: j in p.jobs ==> Exists(made.1, j.dir);
        if q.error.None? {
          assert q.jobs == p.jobs + [Job(found.value, dir)];
        } else {
          assert q.jobs == p.jobs;
        }
      }
    }
  }

  /** Directories are only added, files are untouched, and every job's directory exists. */
  lemma {:induction false} PagesDisk(p: Progress, env: Env, name: string, n: nat)
    requires forall j :: j in p.jobs ==> Exists(p.disk, j.dir)
    ensures var q := VisitPages(p, env, name, n);
      && p.disk.dirs <= q.disk.dirs && q.disk.files == p.disk.files && q.disk.broken == p.disk.broken
      && (forall j :: j in q.jobs ==> Exists(q.disk, j.dir))
  {
    if n > 0 {
      var q' := VisitPages(p, env, name, n - 1);
      assert VisitPages(p, env, name, n) == VisitPage(q', env, name, n - 1);
      PagesDisk(p, env, name, n - 1);
      VisitPageDisk(q', env, name, n - 1);
    }
  }

  /** The body of the inner `for`: one page. */
  method ProcessPage(fs: FileSystem, env: Env, name: string, i: nat, jobs0: seq<Job>, calls0: seq<Call>)
    returns (jobs: seq<Job>, calls: seq<Call>, error: Option<Exception>)
    modifies fs
    ensures Progress(fs.State(), jobs, calls, error)
      == VisitPage(Progress(old(fs.State()), jobs0, calls0, None), env, name, i)
  {
    jobs, calls, error := jobs0, calls0 + [Find(name, LIMIT, LIMIT * i)], None;
    var found := env.find(name, LIMIT, LIMIT * i);
    if found.Err? {
      return jobs, calls, Some(found.error);
    }
    var seller := found.value;
    var dir := PageDir(env.sep, seller.name, i);
    var present := fs.PathExists(dir);
    if !present {
      var made := fs.CreateDirectories(dir);
      if made.Err? {
        return jobs, calls, Some(made.error);
      }
    }
    var csv := env.createCsv(seller, dir);
    if csv.Err? {
      return jobs, calls, Some(csv.error);
    }
    jobs := jobs + [Job(seller, dir)];
  }

  /** The inner `for` over the pages of one seller; the first exception leaves it. */
  method ProcessPages(fs: FileSystem, env: Env, name: string, pages: nat, jobs0: seq<Job>, calls0: seq<Call>)
    returns (jobs: seq<Job>, calls: seq<Call>, error: Option<Exception>)
    modifies fs
    ensures Progress(fs.State(), jobs, calls, error)
      == VisitPages(Progress(old(fs.State()), jobs0, calls0, None), env, name, pages)
  {
    ghost var p0 := Progress(fs.State(), jobs0, calls0, None);
    jobs, calls, error := jobs0, calls0, None;
    var i := 0;
    while i < pages
      invariant 0 <= i <= pages
      invariant p0 == Progress(old(fs.State()), jobs0, calls0, None)
      invariant error.None?
      invariant Progress(fs.State(), jobs, calls, None) == VisitPages(p0, env, name, i)
    {
      jobs, calls, error := ProcessPage(fs, env, name, i, jobs, calls);
      assert Progress(fs.State(), jobs, calls, error) == VisitPages(p0, env, name, i + 1);
      if error.Some? {
        VisitPagesStops(p0, env, name, i + 1, pages);
        return;
      }
      i := i + 1;
    }
  }

  // ----- One seller -----

  /** The `try` block for one trimmed handle: count, then `max(ceil(total / 50), 1)` pages. */
  function SellerProgress(d: Disk, jobs: seq<Job>, calls: seq<Call>, env: Env, name: string): Progress
  {
    var calls' := calls + [Count(name)];
    var total := env.count(name);
    if total.Err? then Progress(d, jobs, calls', Some(total.error))
    else VisitPages(Progress(d, jobs, calls', None), env, name, YAService.CeilPages(total.value, LIMIT))
  }

  /** A seller whose run raises nothing has all `max(ceil(total / 50), 1)` pages found, at
      least one even when the count is 0, and one job per page. */
  lemma SellerPages(d: Disk, jobs: seq<Job>, calls: seq<Call>, env: Env, name: string)
    requires SellerProgress(d, jobs, calls, env, name).error.None?
    ensures env.count(name).Ok?
    ensures var pages := YAService.CeilPages(env.count(name).value, LIMIT);
      var q := SellerProgress(d, jobs, calls, env, name);
      && pages >= 1
      && q.calls == calls + [Count(name)] + PageCalls(name, pages)
      && |q.jobs| == |jobs| + pages
  {
    var p := Progress(d, jobs, calls + [Count(name)], None);
    var pages := YAService.CeilPages(env.count(name).value, LIMIT);
    PagesCalls(p, env, name, pages);
    PagesJobs(p, env, name, pages);
  }

  method ProcessSeller(fs: FileSystem, env: Env, name: string, jobs0: seq<Job>, calls0: seq<Call>)
    returns (jobs: seq<Job>, calls: seq<Call>, error: Option<Exception>)
    modifies fs
    ensures Progress(fs.State(), jobs, calls, error) == SellerProgress(old(fs.State()), jobs0, calls0, env, name)
  {
    calls := calls0 + [Count(name)];
    var total := env.count(name);
    if total.Err? {
      return jobs0, calls, Some(total.error);
    }
    var pages := YAService.CeilPages(total.value, LIMIT);
    jobs, calls, error := ProcessPages(fs, env, name, pages, jobs0, calls);
  }

  // ----- All sellers -----

  /** The state of the run: the disk, the jobs and calls so far, the handles whose error was
      logged, and the exception that escaped `run`, if any. */
  datatype RunState = RunState(disk: Disk, jobs: seq<Job>, calls: seq<Call>, logged: seq<string>, fatal: Option<Exception>)

  /** One iteration of the outer loop: the handle is trimmed, processed, and a caught
      exception is logged against it. */
  function RunSeller(st: RunState, env: Env, raw: string): RunState
  {
    if st.fatal.Some? then st
    else
      var name := Trim(raw);
      var p := SellerProgress(st.disk, st.jobs, st.calls, env, name);
      if p.error.None? then RunState(p.disk, p.jobs, p.calls, st.logged, None)
      else if Caught(p.error.value) then RunState(p.disk, p.jobs, p.calls, st.logged + [name], None)
      else RunState(p.disk, p.jobs, p.calls, st.logged, p.error)
  }

  function RunSellers(st: RunState, env: Env, raws: seq<string>): RunState
  {
    if raws == [] then st else RunSeller(RunSellers(st, env, raws[..|raws| - 1]), env, raws[|raws| - 1])
  }

  /** `run`: read the seller list (its failure escapes), then every handle in order. */
  function RunOn(d: Disk, env: Env): RunState
  {
    var list := CsvService.SellerListOn(d);
    if list.Err? then RunState(d, [], [], [], Some(list.error))
    else RunSellers(RunState(d, [], [], [], None), env, list.value)
  }

  /** One seller's outcome in the run: its calls, jobs and disk carry over, and the run goes
      on unless its exception is not one the `catch` handles. */
  lemma RunSellerFacts(st: RunState, env: Env, raw: string)
    requires st.fatal.None?
    ensures var p := SellerProgress(st.disk, st.jobs, st.calls, env, Trim(raw));
      var r := RunSeller(st, env, raw);
      && r.calls == p.calls && r.jobs == p.jobs && r.disk == p.disk
      && (r.fatal.None? <==> p.error.None? || Caught(p.error.value))
  {
    var p := SellerProgress(st.disk, st.jobs, st.calls, env, Trim(raw));
    var r := RunSeller(st, env, raw);
    if p.error.None? {
      assert r == RunState(p.disk, p.jobs, p.calls, st.logged, None);
    } else if Caught(p.error.value) {
      assert r == RunState(p.disk, p.jobs, p.calls, st.logged + [Trim(raw)], None);
    } else {
      assert r == RunState(p.disk, p.jobs, p.calls, st.logged, p.error);
    }
  }

  lemma {:induction false} RunSellersStops(st: RunState, env: Env, raws: seq<string>, i: nat)
    requires i <= |raws| && RunSellers(st, env, raws[..i]).fatal.Some?
    ensures RunSellers(st, env, raws) == RunSellers(st, env, raws[..i])
    decreases |raws|
  {
    if i < |raws| {
      assert raws[..|raws| - 1][..i] == raws[..i];
      RunSellersStops(st, env, raws[..|raws| - 1], i);
    } else {
      assert raws[..i] == raws;
    }
  }

  /** One iteration of the outer loop, with the `catch`. */
  method StepSeller(fs: FileSystem, env: Env, raw: string, jobs0: seq<Job>, calls0: seq<Call>, logged0: seq<string>)
    returns (jobs: seq<Job>, calls: seq<Call>, logged: seq<string>, fatal: Option<Exception>)
    modifies fs
    ensures RunState(fs.State(), jobs, calls, logged, fatal)
      == RunSeller(RunState(old(fs.State()), jobs0, calls0, logged0, None), env, raw)
  {
    var name := Trim(raw);
    var error;
    jobs, calls, error := ProcessSeller(fs, env, name, jobs0, calls0);
    logged, fatal := logged0, None;
    if error.Some? {
      if Caught(error.value) {
        logged := logged + [name];
      } else {
        fatal := error;
      }
    }
  }

  method Run(fs: FileSystem, env: Env) returns (r: Result<()>, jobs: seq<Job>, calls: seq<Call>, logged: seq<string>)
    modifies fs
    ensures RunState(fs.State(), jobs, calls, logged, if r.Err? then Some(r.error) else None)
      == RunOn(old(fs.State()), env)
  {
    var list := CsvService.ReadSellerList(fs);
    if list.Err? {
      return Err(list.error), [], [], [];
    }
    var raws := list.value;
    ghost var st0 := RunState(fs.State(), [], [], [], None);
    jobs, calls, logged := [], [], [];
    var i := 0;
    while i < |raws|
      invariant 0 <= i <= |raws|
      invariant st0 == RunState(old(fs.State()), [], [], [], None)
      invariant RunState(fs.State(), jobs, calls, logged, None) == RunSellers(st0, env, raws[..i])
    {
      assert raws[..i + 1][..i] == raws[..i];
      var fatal;
      jobs, calls, logged, fatal := StepSeller(fs, env, raws[i], jobs, calls, logged);
      if fatal.Some? {
        RunSellersStops(st0, env, raws, i + 1);
        return Err(fatal.value), jobs, calls, logged;
      }
      i := i + 1;
    }
    assert raws[..i] == raws;
    r := Ok(());
  }

  // ----- Properties of the run -----

  /** The handles the run counted, in order. */
  function Counted(calls: seq<Call>): (r: seq<string>)
  {
    if calls == [] then []
    else Counted(calls[..|calls| - 1]) + (if calls[|calls| - 1].Count? then [calls[|calls| - 1].seller] else [])
  }

  lemma {:induction false} CountedAppend(a: seq<Call>, b: seq<Call>)
    ensures Counted(a + b) == Counted(a) + Counted(b)
    decreases |b|
  {
    if b != [] {
      assert (a + b)[..|a + b| - 1] == a + b[..|b| - 1];
      CountedAppend(a, b[..|b| - 1]);
    } else {
      assert a + b == a;
    }
  }

  lemma {:induction false} CountedPages(name: string, m: nat)
    ensures Counted(PageCalls(name, m)) == []
  {
    if m > 0 {
      CountedPages(name, m - 1);
      assert PageCalls(name, m)[..m - 1] == PageCalls(name, m - 1);
    }
  }

  /** The calls of one seller count exactly that seller. */
  lemma SellerCounted(d: Disk, jobs: seq<Job>, calls: seq<Call>, env: Env, name: string)
    ensures var q := SellerProgress(d, jobs, calls, env, name);
      Counted(q.calls) == Counted(calls) + [name]
  {
    var calls' := calls + [Count(name)];
    assert Counted(calls') == Counted(calls) + [name] by {
      assert calls'[..|calls'| - 1] == calls;
    }
    var total := env.count(name);
    if total.Ok? {
      var p := Progress(d, jobs, calls', None);
      var pages := YAService.CeilPages(total.value, LIMIT);
      var q := VisitPages(p, env, name, pages);
      assert SellerProgress(d, jobs, calls, env, name) == q;
      PagesCalls(p, env, name, pages);
      var m := |q.calls| - |calls'|;
      var pc := PageCalls(name, m);
      assert q.calls == calls' + pc;
      CountedAppend(calls', pc);
      CountedPages(name, m);
    } else {
      assert SellerProgress(d, jobs, calls, env, name).calls == calls';
    }
  }

  /** The trimmed handles. */
  function Trimmed(raws: seq<string>): (r: seq<string>)
    ensures |r| == |raws|
    ensures forall i :: 0 <= i < |raws| ==> r[i] == Trim(raws[i])
  {
    if raws == [] then [] else Trimmed(raws[..|raws| - 1]) + [Trim(raws[|raws| - 1])]
  }

  /** Unless an exception escapes, every handle is counted, trimmed and in list order, even
      after sellers whose errors were logged; the logged handles are among them. */
  lemma {:induction false} RunCountsEverySeller(st: RunState, env: Env, raws: seq<string>)
    requires st.fatal.None?
    ensures var r := RunSellers(st, env, raws);
      r.fatal.None? ==> Counted(r.calls) == Counted(st.calls) + Trimmed(raws)
  {
    if raws != [] {
      var init := raws[..|raws| - 1];
      var last := raws[|raws| - 1];
      var mid := RunSellers(st, env, init);
      var r := RunSeller(mid, env, last);
      assert RunSellers(st, env, raws) == r;
      RunCountsEverySeller(st, env, init);
      if mid.fatal.None? {
        var name := Trim(last);
        var p := SellerProgress(mid.disk, mid.jobs, mid.calls, env, name);
        SellerCounted(mid.disk, mid.jobs, mid.calls, env, name);
        RunSellerFacts(mid, env, last);
        assert Trimmed(raws) == Trimmed(init) + [name];
        CountedStep(st.calls, mid.calls, r.calls, Trimmed(init), name);
      }
    }
  }

  lemma CountedStep(a: seq<Call>, b: seq<Call>, c: seq<Call>, t: seq<string>, name: string)
    requires Counted(b) == Counted(a) + t && Counted(c) == Counted(b) + [name]
    ensures Counted(c) == Counted(a) + (t + [name])
  {
  }

  /** Jobs are never withdrawn: the jobs of sellers whose error was logged stay, and every
      job's directory exists at the end. */
  lemma {:induction false} RunKeepsJobs(st: RunState, env: Env, raws: seq<string>)
    requires forall j :: j in st.jobs ==> Exists(st.disk, j.dir)
    ensures var r := RunSellers(st, env, raws);
      && st.jobs <= r.jobs
      && (forall j :: j in r.jobs ==> Exists(r.disk, j.dir))
  {
    if raws != [] {
      var init := raws[..|raws| - 1];
      var last := raws[|raws| - 1];
      var mid := RunSellers(st, env, init);
      var r := RunSeller(mid, env, last);
      assert RunSellers(st, env, raws) == r;
      RunKeepsJobs(st, env, init);
      if mid.fatal.None? {
        var p := SellerProgress(mid.disk, mid.jobs, mid.calls, env, Trim(last));
        SellerKeepsJobs(mid, env, Trim(last));
        RunSellerFacts(mid, env, last);
      }
    }
  }

  lemma SellerKeepsJobs(st: RunState, env: Env, name: string)
    requires forall j :: j in st.jobs ==> Exists(st.disk, j.dir)
    ensures var q := SellerProgress(st.disk, st.jobs, st.calls, env, name);
      && st.jobs <= q.jobs
      && (forall j :: j in q.jobs ==> Exists(q.disk, j.dir))
  {
    var total := env.count(name);
    if total.Ok? {
      var p := Progress(st.disk, st.jobs, st.calls + [Count(name)], None);
      var pages := YAService.CeilPages(total.value, LIMIT);
      assert SellerProgress(st.disk, st.jobs, st.calls, env, name) == VisitPages(p, env, name, pages);
      PagesJobs(p, env, name, pages);
      PagesDisk(p, env, name, pages);
    } else {
      assert SellerProgress(st.disk, st.jobs, st.calls, env, name).jobs == st.jobs;
    }
  }

  /** The pages one seller completed, read off its calls: its find calls, less the last
      one when the seller ended in an exception after the count. */
  function SellerDone(st: RunState, env: Env, name: string): int
  {
    var q := SellerProgress(st.disk, st.jobs, st.calls, env, name);
    var finds := |q.calls| - |st.calls| - 1;
    if q.error.Some? && finds > 0 then finds - 1 else finds
  }

  /** One job per completed page of the seller, and `max(ceil(total / 50), 1)` of them when
      the seller raises nothing. */
  lemma SellerJobCount(st: RunState, env: Env, name: string)
    ensures var q := SellerProgress(st.disk, st.jobs, st.calls, env, name);
      && SellerDone(st, env, name) >= 0
      && |q.jobs| == |st.jobs| + SellerDone(st, env, name)
      && (q.error.None? ==> env.count(name).Ok?
                            && SellerDone(st, env, name) == YAService.CeilPages(env.count(name).value, LIMIT))
  {
    var total := env.count(name);
    if total.Ok? {
      var p := Progress(st.disk, st.jobs, st.calls + [Count(name)], None);
      var pages := YAService.CeilPages(total.value, LIMIT);
      assert SellerProgress(st.disk, st.jobs, st.calls, env, name) == VisitPages(p, env, name, pages);
      PagesCalls(p, env, name, pages);
      PagesJobs(p, env, name, pages);
    }
  }

  /** The completed pages of the handles the run processed, summed in list order; handles
      after an escaping exception contribute nothing. */
  function RunDone(st: RunState, env: Env, raws: seq<string>): int
  {
    if raws == [] then 0
    else
      var mid := RunSellers(st, env, raws[..|raws| - 1]);
      RunDone(st, env, raws[..|raws| - 1])
        + (if mid.fatal.Some? then 0 else SellerDone(mid, env, Trim(raws[|raws| - 1])))
  }

  /** The run collects exactly one job per completed page, summed over all sellers, those
      whose error was logged counting the pages before their failure. */
  lemma {:induction false} RunJobCount(st: RunState, env: Env, raws: seq<string>)
    ensures |RunSellers(st, env, raws).jobs| == |st.jobs| + RunDone(st, env, raws)
  {
    if raws != [] {
      var init := raws[..|raws| - 1];
      var last := raws[|raws| - 1];
      var mid := RunSellers(st, env, init);
      assert RunSellers(st, env, raws) == RunSeller(mid, env, last);
      RunJobCount(st, env, init);
      if mid.fatal.None? {
        RunSellerFacts(mid, env, last);
        SellerJobCount(mid, env, Trim(last));
      }
    }
  }

  /** Only an exception other than `IOException` and `InterruptedException` ends the run
      early; a run that read its seller list logs each failing handle and goes on. */
  lemma {:induction false} RunFatalUncaught(st: RunState, env: Env, raws: seq<string>)
    requires st.fatal.None?
    ensures var r := RunSellers(st, env, raws);
      r.fatal.Some? ==> !Caught(r.fatal.value)
  {
    if raws != [] {
      RunFatalUncaught(st, env, raws[..|raws| - 1]);
    }
  }
}
