/** `CsvFileReaderUtil`: reads at most `limit` lines of a text file into a map from line
    number to the line's fields, and counts the lines of a file. Lines are those
    `readLine` returns (`Text.Lines`). */
module CsvFileReaderUtil {
  import opened Wrappers
  import opened Text
  import opened FileStore

  /** The text of a readable file; opening a missing file, a directory or a file with an
      I/O error fails with an `IOException`. */
  function ReadText(d: Disk, fileName: string): (r: Result<string>)
    ensures r.Ok? <==> fileName in d.files && d.files[fileName].TextFile? && fileName !in d.broken
  {
    if fileName in d.broken || fileName !in d.files || !d.files[fileName].TextFile? then
      Err(IOException(fileName))
    else Ok(d.files[fileName].text)
  }

  /** How many of `n` lines the loop reads: `limit` of them when `1 <= limit < n`, all of
      them otherwise; a `limit` of 0 or below never equals the count it is compared with. */
  function LinesRead(n: nat, limit: int): (k: nat)
    ensures k <= n
    ensures limit >= 1 ==> k == if limit < n then limit else n
    ensures limit <= 0 ==> k == n
  {
    if 1 <= limit < n then limit else n
  }

  /** The map the loop fills: line `i`, counted from 0, split on the delimiter, for each of
      the lines read. */
  function LimitOffset(lines: seq<string>, delimiter: char, limit: int): map<int, seq<string>>
  {
    map i | 0 <= i < LinesRead(|lines|, limit) :: Split(lines[i], delimiter)
  }

  /** `readLimitOffset` as written: `offset` only renumbers the reader, so reading starts at
      the first line whatever `offset` is. */
  function ReadLimitOffsetOn(d: Disk, fileName: string, delimiter: char, limit: int, offset: int)
    : Result<map<int, seq<string>>>
  {
    var t := ReadText(d, fileName);
    if t.Err? then Err(t.error) else Ok(LimitOffset(Lines(t.value), delimiter, limit))
  }

  /** The read loop: each line is split and stored under the running count, and the loop
      leaves right after the count reaches `limit`. */
  method ReadLines(lines: seq<string>, delimiter: char, limit: int) returns (m: map<int, seq<string>>)
    ensures m == LimitOffset(lines, delimiter, limit)
  {
    m := map[];
    var lineCnt := 0;
    while lineCnt < |lines|
      invariant 0 <= lineCnt <= |lines|
      invariant limit >= 1 ==> lineCnt < limit
      invariant m == map i | 0 <= i < lineCnt :: Split(lines[i], delimiter)
    {
      m := m[lineCnt := Split(lines[lineCnt], delimiter)];
      lineCnt := lineCnt + 1;
      if limit == lineCnt {
        break;
      }
    }
    assert lineCnt == LinesRead(|lines|, limit);
  }

  method ReadLimitOffset(fs: FileSystem, fileName: string, delimiter: char, limit: int, offset: int)
    returns (r: Result<map<int, seq<string>>>)
    ensures r == ReadLimitOffsetOn(fs.State(), fileName, delimiter, limit, offset)
  {
    var t := ReadText(fs.State(), fileName);
    if t.Err? {
      return Err(t.error);
    }
    var m := ReadLines(Lines(t.value), delimiter, limit);
    r := Ok(m);
  }

  /** The keys are exactly `0 .. k-1`, `k` being `min(limit, n)` for a positive limit and
      `n` otherwise, and key `i` holds the fields of line `i`. */
  lemma LimitOffsetContents(lines: seq<string>, delimiter: char, limit: int)
    ensures var m := LimitOffset(lines, delimiter, limit);
      var k := if 1 <= limit && limit < |lines| then limit else |lines|;
      && |m| == k
      && (forall i :: i in m <==> 0 <= i < k)
      && (forall i :: 0 <= i < k ==> m[i] == Split(lines[i], delimiter))
  {
    var k := LinesRead(|lines|, limit);
    assert LimitOffset(lines, delimiter, limit).Keys == Range(k);
  }

  /** The integers `0 .. n-1`. */
  function Range(n: nat): (r: set<int>)
    ensures |r| == n
    ensures forall i :: i in r <==> 0 <= i < n
  {
    if n == 0 then {} else Range(n - 1) + {n - 1}
  }

  /** The offset the documentation promises to start from has no effect: with two lines
      and a limit of one, offset 1 still gives the first line. */
  lemma OffsetIgnored(d: Disk, fileName: string)
    requires d.files == map[fileName := TextFile("a\r\nb\r\n")] && fileName !in d.broken
    ensures ReadLimitOffsetOn(d, fileName, ',', 1, 1) == Ok(map[0 := ["a"]])
  {
    TwoLines();
    assert LimitOffset(["a", "b"], ',', 1) == map[0 := Split("a", ',')];
  }

  /** The text `a`, CRLF, `b`, CRLF reads as the lines `a` and `b`. */
  lemma TwoLines()
    ensures Lines("a\r\nb\r\n") == ["a", "b"]
  {
    LinesOfTerminated(["a", "b"]);
    assert ["a", "b"][..1] == ["a"];
    assert Terminated(["a"]) == [] + "a" + CRLF == "a\r\n";
    assert Terminated(["a", "b"]) == "a\r\n" + "b" + CRLF == "a\r\nb\r\n";
  }

  /** Reading that first skips `offset` lines, as the parameter's documentation describes:
      key `i` then holds line `offset + i`. */
  function LimitOffsetSkipping(lines: seq<string>, delimiter: char, limit: int, offset: int)
    : (m: map<int, seq<string>>)
    ensures var s := if offset <= 0 then 0 else if offset < |lines| then offset else |lines|;
      && (forall i :: i in m <==> 0 <= i < LinesRead(|lines| - s, limit))
      && (forall i :: i in m ==> m[i] == Split(lines[s + i], delimiter))
  {
    var s := if offset <= 0 then 0 else if offset < |lines| then offset else |lines|;
    LimitOffset(lines[s..], delimiter, limit)
  }

  /** With the skip, offset 1 on the same two lines gives the second line. */
  lemma SkippingStartsAtOffset()
    ensures LimitOffsetSkipping(["a", "b"], ',', 1, 1) == map[0 := ["b"]]
  {
    assert ["a", "b"][1..] == ["b"];
    assert LinesRead(1, 1) == 1;
    assert LimitOffset(["b"], ',', 1) == map[0 := Split("b", ',')];
  }

  /** `countLines`: the number of lines `Files.lines` yields. */
  function CountLinesOn(d: Disk, fileName: string): (r: Result<int>)
    ensures r.Ok? <==> ReadText(d, fileName).Ok?
    ensures r.Err? ==> r == Err(IOException(fileName))
    ensures r.Ok? ==> r.value == |Lines(ReadText(d, fileName).value)|
  {
    var t := ReadText(d, fileName);
    if t.Err? then Err(t.error) else Ok(|Lines(t.value)|)
  }

  /** The count of any readable file: its line terminators (`\n`, `\r` and `\r\n`), plus
      one when its last line has no terminator. */
  lemma CountLinesTerminators(d: Disk, fileName: string)
    requires ReadText(d, fileName).Ok?
    ensures var t := ReadText(d, fileName).value;
      CountLinesOn(d, fileName) == Ok(Terminators(t) + if OpenLastLine(t) then 1 else 0)
  {
    LineCount(ReadText(d, fileName).value);
  }

  /** A non-positive limit reads the whole file: the map has one entry per line that
      `countLines` counts, and both fail on the same files. */
  lemma NoLimitReadsAll(d: Disk, fileName: string, delimiter: char, limit: int, offset: int)
    requires limit <= 0
    ensures ReadLimitOffsetOn(d, fileName, delimiter, limit, offset).Ok? <==> CountLinesOn(d, fileName).Ok?
    ensures ReadLimitOffsetOn(d, fileName, delimiter, limit, offset).Ok? ==>
      |ReadLimitOffsetOn(d, fileName, delimiter, limit, offset).value| == CountLinesOn(d, fileName).value
  {
    var t := ReadText(d, fileName);
    if t.Ok? {
      LimitOffsetContents(Lines(t.value), delimiter, limit);
    }
  }

  /** A file written as CRLF-terminated lines without line breaks inside them has as many
      lines as were written. */
  lemma CountTerminated(d: Disk, fileName: string, lines: seq<string>)
    requires fileName in d.files && fileName !in d.broken
    requires d.files[fileName] == TextFile(Terminated(lines))
    requires forall i :: 0 <= i < |lines| ==> NoLineBreak(lines[i])
    ensures CountLinesOn(d, fileName) == Ok(|lines|)
  {
    LinesOfTerminated(lines);
  }
}
