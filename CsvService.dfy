/** `CsvService`: writes a seller's products as a CSV file under `./out/<name>/`, and reads
    the comma-separated list of seller handles. The file writer is modelled by the text it
    leaves in the file; the Shift-JIS encoding is not modelled. */
module CsvService {
  import opened Wrappers
  import opened Text
  import opened Model
  import opened FileStore

  const BASE_DIR: string := "./out"
  const EXTENSION: string := ".csv"
  const SELLER_PATH: string := "./in/seller.csv"

  // ----- Output path -----

  /** The directory that receives a seller's CSV files. */
  function SellerDir(name: string): string
  {
    BASE_DIR + "/" + name
  }

  /** The file name `<name>-<millis>.csv`. */
  function CsvFileName(name: string, millis: int): string
  {
    name + "-" + IntToDecimal(millis) + EXTENSION
  }

  /** The output path, in the order the builder appends its pieces. */
  function CsvPath(name: string, millis: int): string
  {
    BASE_DIR + "/" + name + "/" + name + "-" + IntToDecimal(millis) + EXTENSION
  }

  lemma Regroup(a: string, b: string, c: string, e: string, f: string, g: string)
    ensures a + b + c + b + c + e + f + g == (a + b + c) + b + (c + e + f + g)
  {
  }

  /** For a handle without '/', the file `<name>-<millis>.csv` lies directly in the seller's
      directory `./out/<name>`. */
  lemma CsvPathParts(name: string, millis: int)
    requires '/' !in name
    ensures CsvPath(name, millis) == SellerDir(name) + "/" + CsvFileName(name, millis)
    ensures AfterLast(CsvPath(name, millis), '/') == CsvFileName(name, millis)
    ensures Parent(CsvPath(name, millis)) == SellerDir(name)
  {
    var path := CsvPath(name, millis);
    var file := CsvFileName(name, millis);
    var dec := IntToDecimal(millis);
    Regroup(BASE_DIR, "/", name, "-", dec, EXTENSION);
    DecimalLacks(millis, '/');
    assert '/' !in file by {
      assert '/' !in EXTENSION && '/' !in "-";
    }
    AfterLastAppend(SellerDir(name), '/', file);
    SameFront(Parent(path), SellerDir(name), file);
  }

  /** The seller's directory lies in `./out`. */
  lemma SellerDirParent(name: string)
    requires '/' !in name
    ensures Parent(SellerDir(name)) == BASE_DIR
  {
    AfterLastAppend(BASE_DIR, '/', name);
    SameFront(Parent(SellerDir(name)), BASE_DIR, name);
  }

  lemma SameFront(p: string, q: string, t: string)
    requires p + "/" + t == q + "/" + t
    ensures p == q
  {
    assert |p| == |q|;
    assert p == (p + "/" + t)[..|p|];
    assert q == (q + "/" + t)[..|q|];
  }

  // ----- Row assembly -----

  predicate AllPresent(ps: seq<CsvProduct>)
  {
    forall i :: 0 <= i < |ps| ==> ps[i].csvData.Some?
  }

  /** `k` is the index of the first product whose `csvData()` is null, or `|ps|` when there
      is none. */
  predicate AbsentAt(ps: seq<CsvProduct>, k: int)
  {
    0 <= k <= |ps| && AllPresent(ps[..k]) && (k < |ps| ==> ps[k].csvData.None?)
  }

  function FirstAbsent(ps: seq<CsvProduct>): (k: nat)
    ensures AbsentAt(ps, k)
  {
    if ps == [] || ps[0].csvData.None? then 0
    else
      var k := 1 + FirstAbsent(ps[1..]);
      assert forall i :: 1 <= i < k ==> ps[..k][i] == ps[1..][..k - 1][i - 1];
      k
  }

  lemma AbsentAtUnique(ps: seq<CsvProduct>, j: int, k: int)
    requires AbsentAt(ps, j) && AbsentAt(ps, k)
    ensures j == k
  {
    PresentBefore(ps, j);
    PresentBefore(ps, k);
  }

  lemma PresentBefore(ps: seq<CsvProduct>, k: nat)
    requires k <= |ps| && AllPresent(ps[..k])
    ensures forall i :: 0 <= i < k ==> ps[i].csvData.Some?
  {
    forall i | 0 <= i < k
      ensures ps[i].csvData.Some?
    {
      assert ps[..k][i] == ps[i];
    }
  }

  /** The data lines of products whose `csvData()` is present, in order. */
  function DataLines(ps: seq<CsvProduct>): (r: seq<string>)
    requires AllPresent(ps)
    ensures |r| == |ps|
    ensures forall i :: 0 <= i < |ps| ==> r[i] == ps[i].csvData.value
  {
    if ps == [] then []
    else
      assert AllPresent(ps[..|ps| - 1]) by {
        assert forall i :: 0 <= i < |ps| - 1 ==> ps[..|ps| - 1][i] == ps[i];
      }
      DataLines(ps[..|ps| - 1]) + [ps[|ps| - 1].csvData.value]
  }

  /** What the writer leaves in the file: nothing for no products; otherwise the first
      product's header line and then one data line per product, each ended by CRLF, up to
      the first product whose data is null. */
  function CsvText(ps: seq<CsvProduct>): string
  {
    if ps == [] then []
    else
      var k := FirstAbsent(ps);
      Terminated([ps[0].csvHeader] + DataLines(ps[..k]))
  }

  /** `Writer.write(null)` throws a `NullPointerException`. */
  function CsvFailure(ps: seq<CsvProduct>): Option<Exception>
  {
    if FirstAbsent(ps) < |ps| then Some(NullPointer) else None
  }

  lemma TextStep(h: string, ps: seq<CsvProduct>, i: nat)
    requires i < |ps| && AllPresent(ps[..i + 1])
    ensures AllPresent(ps[..i])
    ensures Terminated([h] + DataLines(ps[..i + 1]))
      == Terminated([h] + DataLines(ps[..i])) + ps[i].csvData.value + CRLF
  {
    assert forall j :: 0 <= j < i ==> ps[..i][j] == ps[..i + 1][j];
    var ls := [h] + DataLines(ps[..i + 1]);
    assert ps[..i + 1][..i] == ps[..i];
    assert DataLines(ps[..i + 1]) == DataLines(ps[..i]) + [ps[i].csvData.value];
    assert ls[..|ls| - 1] == [h] + DataLines(ps[..i]);
  }

  /** The body of `create`: the `isFirst` flag puts the header in front of the first data
      line only; the loop ends at the first null data, after which the file is closed. */
  method WriteRows(ps: seq<CsvProduct>) returns (text: string, failure: Option<Exception>)
    ensures text == CsvText(ps)
    ensures failure == CsvFailure(ps)
  {
    text := [];
    failure := None;
    var isFirst := true;
    var i := 0;
    while i < |ps|
      invariant 0 <= i <= |ps|
      invariant isFirst <==> i == 0
      invariant AllPresent(ps[..i])
      invariant i > 0 ==> text == Terminated([ps[0].csvHeader] + DataLines(ps[..i]))
      invariant i == 0 ==> text == []
    {
      var p := ps[i];
      if isFirst {
        text := text + p.csvHeader;
        text := text + CRLF;
        isFirst := false;
        assert ps[..0] == [];
        assert text == Terminated([ps[0].csvHeader] + DataLines(ps[..0]));
      }
      if p.csvData.None? {
        failure := Some(NullPointer);
        AbsentAtUnique(ps, i, FirstAbsent(ps));
        return;
      }
      assert AllPresent(ps[..i + 1]) by {
        assert forall j :: 0 <= j < i ==> ps[..i + 1][j] == ps[..i][j];
      }
      TextStep(ps[0].csvHeader, ps, i);
      text := text + p.csvData.value;
      text := text + CRLF;
      i := i + 1;
    }
    assert ps[..i] == ps;
    AbsentAtUnique(ps, i, FirstAbsent(ps));
  }

  /** No products: the file stays empty, and nothing fails. */
  lemma EmptyCsv()
    ensures CsvText([]) == [] && CsvFailure([]).None?
  {
  }

  /** When every product has data, the file reads back as the first product's header and
      then each product's data line, in order: `n + 1` lines for `n >= 1` products. The
      header is therefore written once, ahead of all data. */
  lemma CsvLines(ps: seq<CsvProduct>)
    requires ps != [] && AllPresent(ps)
    requires NoLineBreak(ps[0].csvHeader)
    requires forall i :: 0 <= i < |ps| ==> NoLineBreak(ps[i].csvData.value)
    ensures CsvFailure(ps).None?
    ensures Lines(CsvText(ps)) == [ps[0].csvHeader] + DataLines(ps)
    ensures |Lines(CsvText(ps))| == |ps| + 1
  {
    SucceedsIffPresent(ps);
    var ls := [ps[0].csvHeader] + DataLines(ps);
    CsvTextComplete(ps);
    CsvLinesUnbroken(ps);
    LinesOfTerminated(ls);
  }

  /** With every data line present, the text holds all of them. */
  lemma CsvTextComplete(ps: seq<CsvProduct>)
    requires ps != [] && AllPresent(ps)
    ensures CsvText(ps) == Terminated([ps[0].csvHeader] + DataLines(ps))
  {
    AbsentAtUnique(ps, |ps|, FirstAbsent(ps));
    assert ps[..|ps|] == ps;
  }

  lemma CsvLinesUnbroken(ps: seq<CsvProduct>)
    requires ps != [] && AllPresent(ps)
    requires NoLineBreak(ps[0].csvHeader)
    requires forall i :: 0 <= i < |ps| ==> NoLineBreak(ps[i].csvData.value)
    ensures var ls := [ps[0].csvHeader] + DataLines(ps);
      forall i :: 0 <= i < |ls| ==> NoLineBreak(ls[i])
  {
    var ls := [ps[0].csvHeader] + DataLines(ps);
    forall i | 0 <= i < |ls|
      ensures NoLineBreak(ls[i])
    {
      if i > 0 {
        assert ls[i] == DataLines(ps)[i - 1] == ps[i - 1].csvData.value;
      }
    }
  }

  /** Every line of the text ends with CRLF, the line break of section 2 of RFC 4180: the
      text is a CRLF-terminated sequence of lines. */
  lemma CsvCrlf(ps: seq<CsvProduct>)
    requires ps != []
    ensures var t := CsvText(ps); |t| >= 2 && t[|t| - 2..] == CRLF
  {
    var ls := [ps[0].csvHeader] + DataLines(ps[..FirstAbsent(ps)]);
    assert Terminated(ls) == Terminated(ls[..|ls| - 1]) + ls[|ls| - 1] + CRLF;
  }

  /** A null data line stops the writer after the lines before it: the header and the data
      of the products ahead of it are in the file, and the call fails with a
      `NullPointerException`. */
  lemma CsvStopsAtNull(ps: seq<CsvProduct>, k: nat)
    requires k < |ps| && AllPresent(ps[..k]) && ps[k].csvData.None?
    ensures CsvText(ps) == Terminated([ps[0].csvHeader] + DataLines(ps[..k]))
    ensures CsvFailure(ps) == Some(NullPointer)
  {
    AbsentAtUnique(ps, k, FirstAbsent(ps));
  }

  /** The products of a seller as the CSV writer sees them. */
  function CsvProducts(ps: seq<YAProduct>): (r: seq<CsvProduct>)
    ensures |r| == |ps|
    ensures forall i :: 0 <= i < |ps| ==> r[i] == AsCsvProduct(ps[i])
  {
    if ps == [] then [] else [AsCsvProduct(ps[0])] + CsvProducts(ps[1..])
  }

  /** For auction products, whose `csvData()` is null, a non-empty seller gets the header
      line alone and the call fails. */
  lemma YAProductCsv(ps: seq<YAProduct>)
    requires ps != []
    ensures CsvText(CsvProducts(ps)) == CSV_HEADER + CRLF
    ensures CsvFailure(CsvProducts(ps)) == Some(NullPointer)
  {
    var cs := CsvProducts(ps);
    assert cs[0] == AsCsvProduct(ps[0]);
    CsvStopsAtNull(cs, 0);
    assert cs[..0] == [];
    assert Terminated([CSV_HEADER]) == Terminated([]) + CSV_HEADER + CRLF;
  }

  // ----- create -----

  /** `create(seller)` on a disk, `millis` being the clock reading: the writer opens
      the file (an I/O error, a missing parent directory, or a directory at the path makes
      it fail), the text is written, and the file is closed with what was written, even when
      a null data line aborts the loop. */
  function CreateOn(d: Disk, name: string, ps: seq<CsvProduct>, millis: int): (Result<()>, Disk)
  {
    var w := WriteOn(d, CsvPath(name, millis), TextFile(CsvText(ps)));
    if w.0.Ok? && CsvFailure(ps).Some? then (Err(CsvFailure(ps).value), w.1) else w
  }

  method Create(fs: FileSystem, name: string, ps: seq<CsvProduct>, millis: int) returns (r: Result<()>)
    modifies fs
    ensures (r, fs.State()) == CreateOn(old(fs.State()), name, ps, millis)
  {
    var path := BASE_DIR;
    path := path + "/";
    path := path + name;
    path := path + "/";
    path := path + name;
    path := path + "-";
    path := path + IntToDecimal(millis);
    path := path + EXTENSION;
    var text, failure := WriteRows(ps);
    r := fs.Write(path, TextFile(text));
    if r.Ok? && failure.Some? {
      r := Err(failure.value);
    }
  }

  /** What `create` does to the disk: for a handle without '/', the call succeeds exactly
      when the seller's directory exists, the path is free of a directory and of I/O errors,
      and every product has data; the file at the path then holds the CSV text, and nothing
      else on the disk changes. A null data line still leaves the text written before it. */
  lemma CreateEffects(d: Disk, name: string, ps: seq<CsvProduct>, millis: int)
    requires '/' !in name
    ensures var path := CsvPath(name, millis);
      var opens := SellerDir(name) in d.dirs && path !in d.dirs && path !in d.broken;
      var res := CreateOn(d, name, ps, millis);
      && (res.0.Ok? <==> opens && AllPresent(ps))
      && res.1.dirs == d.dirs && res.1.broken == d.broken
      && res.1.files == (if opens then d.files[path := TextFile(CsvText(ps))] else d.files)
  {
    CsvPathParts(name, millis);
    SucceedsIffPresent(ps);
  }

  /** The writer fails on its own exactly when some product lacks data. */
  lemma SucceedsIffPresent(ps: seq<CsvProduct>)
    ensures CsvFailure(ps).None? <==> AllPresent(ps)
  {
    assert ps[..|ps|] == ps;
    if AllPresent(ps) {
      AbsentAtUnique(ps, |ps|, FirstAbsent(ps));
    }
  }

  // ----- readSellerList -----

  /** `readSellerList`: the seller file's text split on ',' as `String.split` does; reading a
      missing or unreadable file is an `IOException`. */
  function SellerListOn(d: Disk): (r: Result<seq<string>>)
    ensures r.Ok? <==> SELLER_PATH in d.files && d.files[SELLER_PATH].TextFile? && SELLER_PATH !in d.broken
  {
    if SELLER_PATH in d.broken || SELLER_PATH !in d.files || !d.files[SELLER_PATH].TextFile? then
      Err(IOException(SELLER_PATH))
    else Ok(Split(d.files[SELLER_PATH].text, ','))
  }

  method ReadSellerList(fs: FileSystem) returns (r: Result<seq<string>>)
    ensures r == SellerListOn(fs.State())
  {
    if SELLER_PATH in fs.broken || SELLER_PATH !in fs.files || !fs.files[SELLER_PATH].TextFile? {
      return Err(IOException(SELLER_PATH));
    }
    r := Ok(Split(fs.files[SELLER_PATH].text, ','));
  }

  /** Handles written to the seller file separated by commas are read back, except that
      trailing empty handles are dropped when there are several. */
  lemma SellerListRoundTrip(names: seq<string>)
    requires |names| >= 1
    requires forall i :: 0 <= i < |names| ==> ',' !in names[i]
    ensures Split(Join(names, ','), ',') == if |names| == 1 then names else DropTrailingEmpty(names)
  {
    var s := Join(names, ',');
    JoinFields(names, ',');
    if |names| == 1 {
      assert s == names[0];
    } else {
      var init := names[..|names| - 1];
      assert s == Join(init, ',') + [','] + names[|names| - 1];
      assert s[|Join(init, ',')|] == ',';
    }
  }
}
