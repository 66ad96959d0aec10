/** The Java String operations the scraper relies on, written out on
    `seq<char>`: `split` with a one-character pattern, `trim`, `endsWith`,
    `indexOf`, `replaceAll("\\D", "")`, decimal rendering of integers and
    decimal parsing of digit strings, and commons-lang `isBlank`. */
module Text {

  predicate IsDigit(c: char) { '0' <= c <= '9' }

  function DigitVal(c: char): nat
    requires IsDigit(c)
  {
    c as int - '0' as int
  }

  function DigitChar(d: nat): (c: char)
    requires d < 10
    ensures IsDigit(c) && DigitVal(c) == d
  {
    ('0' as int + d) as char
  }

  predicate AllDigits(s: string) { forall i :: 0 <= i < |s| ==> IsDigit(s[i]) }

  /** `s.replaceAll("\\D", "")`: every character other than an ASCII digit is removed
      (Java's `\D` without UNICODE_CHARACTER_CLASS). */
  function DigitsOnly(s: string): (r: string)
    ensures |r| <= |s|
    ensures AllDigits(r)
    ensures AllDigits(s) ==> r == s
  {
    if s == [] then [] else (if IsDigit(s[0]) then [s[0]] else []) + DigitsOnly(s[1..])
  }

  lemma {:induction false} DigitsOnlyAppend(a: string, b: string)
    ensures DigitsOnly(a + b) == DigitsOnly(a) + DigitsOnly(b)
  {
    if a == [] {
      assert a + b == b;
    } else {
      var h := if IsDigit(a[0]) then [a[0]] else [];
      assert (a + b)[0] == a[0] && (a + b)[1..] == a[1..] + b;
      assert DigitsOnly(a + b) == h + DigitsOnly(a[1..] + b);
      assert DigitsOnly(a) == h + DigitsOnly(a[1..]);
      DigitsOnlyAppend(a[1..], b);
    }
  }

  /** The value of a string of decimal digits (leading zeros allowed). */
  function DecimalValue(s: string): nat
    requires AllDigits(s)
  {
    if s == [] then 0 else DecimalValue(s[..|s| - 1]) * 10 + DigitVal(s[|s| - 1])
  }

  /** The decimal rendering of a natural number, as `String.valueOf` gives it. */
  function NatToDecimal(n: nat): (r: string)
    ensures |r| >= 1 && AllDigits(r)
    ensures r[0] == '0' ==> n == 0
  {
    if n < 10 then [DigitChar(n)] else NatToDecimal(n / 10) + [DigitChar(n % 10)]
  }

  /** `StringBuilder.append(int)`: a minus sign before the magnitude of a negative value. */
  function IntToDecimal(i: int): (r: string)
    ensures |r| >= 1
    ensures i >= 0 ==> AllDigits(r) && DecimalValue(r) == i
    ensures i < 0 ==> r[0] == '-' && AllDigits(r[1..]) && DecimalValue(r[1..]) == -i
  {
    DecimalRoundTrip(if i < 0 then -i else i);
    if i < 0 then "-" + NatToDecimal(-i) else NatToDecimal(i)
  }

  /** Rendering then parsing gives the number back. */
  lemma {:induction false} DecimalRoundTrip(n: nat)
    ensures DecimalValue(NatToDecimal(n)) == n
  {
    if n >= 10 {
      var r := NatToDecimal(n);
      DecimalRoundTrip(n / 10);
      assert r[..|r| - 1] == NatToDecimal(n / 10);
    }
  }

  /** A decimal rendering holds only digits and a leading minus sign. */
  lemma DecimalLacks(i: int, c: char)
    requires !IsDigit(c) && c != '-'
    ensures c !in IntToDecimal(i)
  {
    var r := IntToDecimal(i);
    if i < 0 {
      assert r == [r[0]] + r[1..];
      assert c !in r[1..] by { assert AllDigits(r[1..]); }
    } else {
      assert AllDigits(r);
    }
  }

  /** Two renderings are equal exactly when the numbers are. */
  lemma IntToDecimalInjective(i: int, j: int)
    ensures IntToDecimal(i) == IntToDecimal(j) <==> i == j
  {
    var a, b := IntToDecimal(i), IntToDecimal(j);
    if a == b && i < 0 && j < 0 {
      assert a[1..] == b[1..];
    }
  }

  /** `s.indexOf(c)`: the first position of `c`, or -1 when `c` does not occur. */
  function IndexOf(s: string, c: char): (r: int)
    ensures -1 <= r < |s|
    ensures r >= 0 ==> s[r] == c
    ensures forall i :: 0 <= i < |s| && (r == -1 || i < r) ==> s[i] != c
  {
    if s == [] then -1
    else if s[0] == c then 0
    else
      var k := IndexOf(s[1..], c);
      assert s[1..][..k + 1] == s[1..k + 2] by {}
      if k == -1 then -1 else k + 1
  }

  /** `s.endsWith(suffix)`. */
  predicate EndsWith(s: string, suffix: string)
  {
    |suffix| <= |s| && s[|s| - |suffix|..] == suffix
  }

  /** The last position of `c` in `s`, or -1 when `c` does not occur. */
  function LastIndexOf(s: string, c: char): (r: int)
    ensures -1 <= r < |s|
    ensures r >= 0 ==> s[r] == c
    ensures forall i :: r < i < |s| ==> s[i] != c
  {
    if s == [] then -1
    else if s[|s| - 1] == c then |s| - 1
    else LastIndexOf(s[..|s| - 1], c)
  }

  /** Any position holding `c` with no `c` after it is the last position of `c`. */
  lemma LastIndexOfUnique(s: string, c: char, j: int)
    requires -1 <= j < |s|
    requires j >= 0 ==> s[j] == c
    requires forall i :: j < i < |s| ==> s[i] != c
    ensures LastIndexOf(s, c) == j
  {
  }

  /** The part of `s` after its last `d` (all of `s` when there is none). */
  function AfterLast(s: string, d: char): (r: string)
    ensures |r| <= |s| && r == s[|s| - |r|..] && d !in r
    ensures |r| < |s| ==> s[|s| - |r| - 1] == d
  {
    s[LastIndexOf(s, d) + 1..]
  }

  /** Every piece between occurrences of `d`, including empty ones: `s.split(d, -1)`.
      The last piece is the text after the last `d`. */
  function Fields(s: string, d: char): (r: seq<string>)
    ensures |r| >= 1
    decreases |s|
  {
    var j := LastIndexOf(s, d);
    if j == -1 then [s] else Fields(s[..j], d) + [s[j + 1..]]
  }

  /** `String.join(d, parts)`. */
  function Join(parts: seq<string>, d: char): string
  {
    if |parts| == 0 then []
    else if |parts| == 1 then parts[0]
    else Join(parts[..|parts| - 1], d) + [d] + parts[|parts| - 1]
  }

  lemma Join3(a: string, b: string, c: string, d: char)
    ensures Join([a, b, c], d) == a + [d] + b + [d] + c
  {
    assert [a, b, c][..2] == [a, b];
    assert [a, b][..1] == [a];
    assert Join([a], d) == a;
    assert Join([a, b], d) == a + [d] + b;
  }

  /** A character in none of the parts, other than the separator, is not in their join. */
  lemma {:induction false} JoinLacks(parts: seq<string>, d: char, c: char)
    requires c != d
    requires forall i :: 0 <= i < |parts| ==> c !in parts[i]
    ensures c !in Join(parts, d)
  {
    if |parts| > 1 {
      JoinLacks(parts[..|parts| - 1], d, c);
    }
  }

  /** Joining the fields gives the string back. */
  lemma {:induction false} FieldsJoin(s: string, d: char)
    ensures Join(Fields(s, d), d) == s
    decreases |s|
  {
    var j := LastIndexOf(s, d);
    if j != -1 {
      var init := Fields(s[..j], d);
      FieldsJoin(s[..j], d);
      var f := init + [s[j + 1..]];
      assert f[..|f| - 1] == init;
      assert s == s[..j] + [d] + s[j + 1..];
    }
  }

  /** The `d` put in front of a `d`-free tail is the last `d`. */
  lemma {:induction false} LastIndexOfAppend(p: string, d: char, q: string)
    requires d !in q
    ensures LastIndexOf(p + [d] + q, d) == |p|
    decreases |q|
  {
    var s := p + [d] + q;
    if q != [] {
      var q' := q[..|q| - 1];
      assert s[|s| - 1] == q[|q| - 1];
      assert s[..|s| - 1] == p + [d] + q';
      LastIndexOfAppend(p, d, q');
    }
  }

  /** Splitting a join of `d`-free parts gives the parts back. */
  lemma {:induction false} JoinFields(parts: seq<string>, d: char)
    requires |parts| >= 1
    requires forall i :: 0 <= i < |parts| ==> d !in parts[i]
    ensures Fields(Join(parts, d), d) == parts
  {
    if |parts| > 1 {
      var init := parts[..|parts| - 1];
      var last := parts[|parts| - 1];
      var head := Join(init, d);
      var s := head + [d] + last;
      assert Join(parts, d) == s;
      LastIndexOfAppend(head, d, last);
      assert s[..|head|] == head && s[|head| + 1..] == last;
      assert Fields(s, d) == Fields(head, d) + [last];
      JoinFields(init, d);
      assert init + [last] == parts;
    }
  }

  /** The last field is the text after the last `d`. */
  lemma LastFieldIsAfterLast(s: string, d: char)
    ensures Fields(s, d)[|Fields(s, d)| - 1] == AfterLast(s, d)
  {
    var j := LastIndexOf(s, d);
    if j == -1 {
      assert Fields(s, d) == [s];
      assert s[0..] == s;
    } else {
      var f := Fields(s[..j], d) + [s[j + 1..]];
      assert Fields(s, d) == f;
      assert f[|f| - 1] == s[j + 1..];
    }
  }

  /** The first field is the text before the first `d`. */
  lemma {:induction false} FirstFieldBeforeFirst(t: string, d: char, rest: string)
    requires d !in t
    ensures Fields(t + [d] + rest, d)[0] == t
    decreases |rest|
  {
    var s := t + [d] + rest;
    var j := LastIndexOf(s, d);
    assert s[|t|] == d;
    if j == |t| {
      assert s[..j] == t;
      LastIndexOfUnique(t, d, -1);
    } else {
      var rest' := rest[..j - |t| - 1];
      assert s[..j] == t + [d] + rest';
      FirstFieldBeforeFirst(t, d, rest');
    }
  }

  /** The pieces with the trailing empty ones removed. */
  function DropTrailingEmpty(ps: seq<string>): (r: seq<string>)
    ensures |r| <= |ps| && r == ps[..|r|]
    ensures r == [] || r[|r| - 1] != []
    ensures forall i :: |r| <= i < |ps| ==> ps[i] == []
  {
    if ps == [] || ps[|ps| - 1] != [] then ps else DropTrailingEmpty(ps[..|ps| - 1])
  }

  /** `s.split(d)` for a one-character literal pattern: the string itself when `d` does not
      occur, otherwise the pieces between occurrences with trailing empty pieces dropped. */
  function Split(s: string, d: char): (r: seq<string>)
    ensures d !in s ==> r == [s]
    ensures d in s ==> r == DropTrailingEmpty(Fields(s, d))
  {
    if d !in s then [s] else DropTrailingEmpty(Fields(s, d))
  }

  /** When `s` does not end in `d`, `s.split(d)` keeps every field, and its last element is
      the non-empty text after the last `d`. */
  lemma LastSplitElement(s: string, d: char)
    requires |s| > 0 && s[|s| - 1] != d
    ensures Split(s, d) == Fields(s, d)
    ensures Split(s, d)[|Split(s, d)| - 1] == AfterLast(s, d) != []
  {
    var f := Fields(s, d);
    LastFieldIsAfterLast(s, d);
    var a := AfterLast(s, d);
    assert |a| > 0;
    if d !in s {
      LastIndexOfUnique(s, d, -1);
    } else {
      KeepsLastNonEmpty(f);
    }
  }

  lemma KeepsLastNonEmpty(ps: seq<string>)
    requires |ps| > 0 && |ps[|ps| - 1]| > 0
    ensures DropTrailingEmpty(ps) == ps
  {
  }

  /** The first piece of `s.split(d)` when `s` starts with a non-empty, `d`-free part. */
  lemma FirstSplitField(t: string, d: char, rest: string)
    requires t != [] && d !in t
    ensures |Split(t + [d] + rest, d)| >= 1 && Split(t + [d] + rest, d)[0] == t
  {
    var s := t + [d] + rest;
    assert s[|t|] == d;
    FirstFieldBeforeFirst(t, d, rest);
    var f := Fields(s, d);
    var r := DropTrailingEmpty(f);
    assert |f| >= 1 && f[0] != [];
  }

  /** Splitting at a separator whose right-hand side holds no `d`: the part after the last
      `d` is exactly that right-hand side. */
  lemma AfterLastAppend(p: string, d: char, q: string)
    requires d !in q
    ensures AfterLast(p + [d] + q, d) == q
  {
    LastIndexOfAppend(p, d, q);
    assert (p + [d] + q)[|p| + 1..] == q;
  }

  /** The first loop of `String.trim()`: from `st` on, skip every character up to U+0020.
      The result is the first index at or after `st` holding a character above U+0020, or
      the length. */
  function Leading(s: string, st: nat): (n: nat)
    requires st <= |s|
    ensures st <= n <= |s|
    ensures forall k :: st <= k < n ==> s[k] <= ' '
    ensures n == |s| || s[n] > ' '
    decreases |s| - st
  {
    if st < |s| && s[st] <= ' ' then Leading(s, st + 1) else st
  }

  /** The second loop of `String.trim()`: while the character before `len` is up to U+0020,
      and `len` is above `st`, step `len` back. The result is the end of the kept piece. */
  function Trailing(s: string, st: nat, len: nat): (n: nat)
    requires st <= len <= |s|
    ensures st <= n <= len
    ensures forall k :: n <= k < len ==> s[k] <= ' '
    ensures n == st || s[n - 1] > ' '
    decreases len
  {
    if st < len && s[len - 1] <= ' ' then Trailing(s, st, len - 1) else len
  }

  /** `String.trim()`: the piece of the original with everything outside it at most U+0020
      and nothing at most U+0020 at either end of it (unique, by `TrimUnique`). */
  function Trim(s: string): (r: string)
    ensures exists i, j :: 0 <= i <= j <= |s| && r == s[i..j] && TrimmedAt(s, i, j)
  {
    var st := Leading(s, 0);
    var len := Trailing(s, st, |s|);
    assert TrimmedAt(s, st, len);
    s[st..len]
  }

  /** `s[i..j]` is what trimming `s` keeps: the characters before `i` and from `j` on are at
      most U+0020, and the piece is empty or starts and ends above U+0020. */
  predicate TrimmedAt(s: string, i: int, j: int)
    requires 0 <= i <= j <= |s|
  {
    && (forall k :: 0 <= k < i ==> s[k] <= ' ')
    && (forall k :: j <= k < |s| ==> s[k] <= ' ')
    && (i == j || (s[i] > ' ' && s[j - 1] > ' '))
  }

  /** Only one piece of `s` is trimmed at: any `s[i..j]` meeting `TrimmedAt` is `Trim(s)`. */
  lemma TrimUnique(s: string, i: int, j: int)
    requires 0 <= i <= j <= |s| && TrimmedAt(s, i, j)
    ensures Trim(s) == s[i..j]
  {
    var st := Leading(s, 0);
    var len := Trailing(s, st, |s|);
    TrimmedAtSame(s, i, j, st, len);
    SliceAgain(s, Trim(s), st, len, i, j);
  }

  /** Two pieces trimmed at have the same bounds, or are both empty. */
  lemma TrimmedAtSame(s: string, i: int, j: int, i': int, j': int)
    requires 0 <= i <= j <= |s| && TrimmedAt(s, i, j)
    requires 0 <= i' <= j' <= |s| && TrimmedAt(s, i', j')
    ensures (i == i' && j == j') || (i == j && i' == j')
  {
    if i < j && i' < j' {
      if i' < i {
        assert false;
      } else if i < i' {
        assert false;
      } else if j' < j {
        assert false;
      } else if j < j' {
        assert false;
      }
    } else if i < j {
      assert false;
    } else if i' < j' {
      assert false;
    }
  }

  /** Slices with the same bounds, or two empty slices, are equal. */
  lemma SliceAgain(s: string, r: string, a: int, b: int, i: int, j: int)
    requires 0 <= a <= b <= |s| && 0 <= i <= j <= |s| && r == s[a..b]
    requires (i == a && j == b) || (i == j && a == b)
    ensures r == s[i..j]
  {
  }

  /** The trimmed string has no character up to U+0020 at either end, and trimming it
      again changes nothing. */
  lemma TrimProperties(s: string)
    ensures Trim(s) == [] || (Trim(s)[0] > ' ' && Trim(s)[|Trim(s)| - 1] > ' ')
    ensures Trim(Trim(s)) == Trim(s)
  {
    var st := Leading(s, 0);
    var len := Trailing(s, st, |s|);
    var r := s[st..len];
    assert Trim(s) == r;
    assert r == [] || (r[0] == s[st] && r[|r| - 1] == s[len - 1]);
    assert TrimmedAt(r, 0, |r|);
    TrimUnique(r, 0, |r|);
    assert r[0..|r|] == r;
  }

  /** `Character.isWhitespace`: the Unicode space, line and paragraph separators other
      than the no-break spaces, and the ASCII controls TAB to CR and FS to US. */
  predicate IsWhitespace(c: char)
  {
    || '\t' <= c <= '\r'
    || '\U{1C}' <= c <= ' '
    || c == '\U{1680}'
    || ('\U{2000}' <= c <= '\U{200A}' && c != '\U{2007}')
    || c == '\U{2028}' || c == '\U{2029}' || c == '\U{205F}' || c == '\U{3000}'
  }

  /** commons-lang `StringUtils.isBlank`: empty or whitespace only. */
  predicate IsBlank(s: string)
  {
    forall i :: 0 <= i < |s| ==> IsWhitespace(s[i])
  }
  /** `'\n'` and `'\r'`, the characters that end a line for `BufferedReader.readLine`. */
  predicate IsLineBreak(c: char) { c == '\n' || c == '\r' }

  predicate NoLineBreak(s: string) { forall i :: 0 <= i < |s| ==> !IsLineBreak(s[i]) }

  /** The position of the first line break in `s`, or `|s|` when there is none. */
  function LineEnd(s: string): (k: nat)
    ensures k <= |s| && NoLineBreak(s[..k])
    ensures k < |s| ==> IsLineBreak(s[k])
  {
    if s == [] || IsLineBreak(s[0]) then 0
    else
      var k := 1 + LineEnd(s[1..]);
      assert s[..k] == [s[0]] + s[1..][..k - 1];
      k
  }

  /** The lines `readLine` returns one by one: a line ends at `"\n"`, `"\r"` or `"\r\n"`,
      a last line without a terminator still counts, and a final terminator does not
      open an empty line. */
  function Lines(s: string): (r: seq<string>)
    ensures forall i :: 0 <= i < |r| ==> NoLineBreak(r[i])
    ensures s == [] <==> r == []
    decreases |s|
  {
    if s == [] then []
    else
      var k := LineEnd(s);
      if k == |s| then [s]
      else
        var next := if s[k] == '\r' && k + 1 < |s| && s[k + 1] == '\n' then k + 2 else k + 1;
        [s[..k]] + Lines(s[next..])
  }

  /** The line terminators of `s`, read one character at a time: each '\r', and each '\n'
      that does not follow a '\r'. */
  function Terminators(s: string): nat
    decreases |s|
  {
    if s == [] then 0
    else if s[0] == '\r' then 1 + (if |s| > 1 && s[1] == '\n' then Terminators(s[2..]) else Terminators(s[1..]))
    else if s[0] == '\n' then 1 + Terminators(s[1..])
    else Terminators(s[1..])
  }

  /** Whether the text ends inside a line, that is, with a last line that has no terminator. */
  predicate OpenLastLine(s: string)
  {
    s != [] && !IsLineBreak(s[|s| - 1])
  }

  /** Characters other than line breaks do not change the terminator count. */
  lemma {:induction false} TerminatorsSkip(s: string, k: nat)
    requires k <= |s| && NoLineBreak(s[..k])
    ensures Terminators(s) == Terminators(s[k..])
    decreases k
  {
    if k > 0 {
      assert !IsLineBreak(s[..k][0]);
      assert s[1..][..k - 1] == s[..k][1..];
      TerminatorsSkip(s[1..], k - 1);
      assert s[1..][k - 1..] == s[k..];
    }
  }

  /** A line break at `k` is one terminator; a CR followed by LF counts once. */
  lemma TerminatorsAtBreak(s: string, k: nat)
    requires k < |s| && IsLineBreak(s[k])
    ensures Terminators(s[k..]) ==
      1 + Terminators(s[if s[k] == '\r' && k + 1 < |s| && s[k + 1] == '\n' then k + 2 else k + 1..])
  {
    var t := s[k..];
    assert t[0] == s[k];
    if s[k] == '\r' && k + 1 < |s| && s[k + 1] == '\n' {
      assert t[1] == '\n' && t[2..] == s[k + 2..];
    } else {
      assert t[1..] == s[k + 1..];
    }
  }

  /** Cutting a text just after a line break keeps whether its last line is open. */
  lemma OpenLastLineAfterBreak(s: string, j: nat)
    requires 0 < j <= |s| && IsLineBreak(s[j - 1])
    ensures OpenLastLine(s) == OpenLastLine(s[j..])
  {
    if j < |s| {
      assert s[j..][|s[j..]| - 1] == s[|s| - 1];
    }
  }

  /** A text without line break is one open line. */
  lemma LineCountWhole(s: string)
    requires s != [] && LineEnd(s) == |s|
    ensures |Lines(s)| == Terminators(s) + (if OpenLastLine(s) then 1 else 0)
  {
    assert s[..|s|] == s;
    TerminatorsSkip(s, |s|);
    assert s[|s|..] == [];
  }

  /** The first line and its terminator add one line and one terminator. */
  lemma LineCountStep(s: string, k: nat, next: nat)
    requires s != [] && k == LineEnd(s) < |s|
    requires next == if s[k] == '\r' && k + 1 < |s| && s[k + 1] == '\n' then k + 2 else k + 1
    requires |Lines(s[next..])| == Terminators(s[next..]) + (if OpenLastLine(s[next..]) then 1 else 0)
    ensures |Lines(s)| == Terminators(s) + (if OpenLastLine(s) then 1 else 0)
  {
    TerminatorsSkip(s, k);
    TerminatorsAtBreak(s, k);
    OpenLastLineAfterBreak(s, next);
    assert Lines(s) == [s[..k]] + Lines(s[next..]);
  }

  /** The number of lines `readLine` returns is the number of terminators, plus one when the
      last line has none. */
  lemma {:induction false} LineCount(s: string)
    ensures |Lines(s)| == Terminators(s) + (if OpenLastLine(s) then 1 else 0)
    decreases |s|
  {
    if s != [] {
      var k := LineEnd(s);
      if k == |s| {
        LineCountWhole(s);
      } else {
        var next := if s[k] == '\r' && k + 1 < |s| && s[k + 1] == '\n' then k + 2 else k + 1;
        LineCount(s[next..]);
        LineCountStep(s, k, next);
      }
    }
  }

  const CRLF: string := "\r\n"

  /** The lines written one after another, each followed by CRLF. */
  function Terminated(lines: seq<string>): (r: string)
    decreases |lines|
  {
    if lines == [] then [] else Terminated(lines[..|lines| - 1]) + lines[|lines| - 1] + CRLF
  }

  lemma {:induction false} TerminatedFront(lines: seq<string>)
    requires lines != []
    ensures Terminated(lines) == lines[0] + CRLF + Terminated(lines[1..])
    decreases |lines|
  {
    var n := |lines|;
    var last := lines[n - 1];
    if n > 1 {
      var init := lines[..n - 1];
      var tail := lines[1..];
      assert Terminated(lines) == Terminated(init) + last + CRLF;
      TerminatedFront(init);
      assert init[0] == lines[0];
      var t := Terminated(init[1..]);
      assert init[1..] == tail[..n - 2] && tail[n - 2] == last;
      assert Terminated(tail) == t + last + CRLF;
      Assoc5(lines[0], CRLF, t, last);
    } else {
      assert lines[..0] == [] && lines[1..] == [];
    }
  }

  lemma Assoc5(a: string, b: string, c: string, e: string)
    ensures a + b + c + e + b == a + b + (c + e + b)
  {
  }

  /** A line followed by CRLF is read back as that line, and reading resumes after the CRLF. */
  lemma LinesCons(l: string, rest: string)
    requires NoLineBreak(l)
    ensures Lines(l + CRLF + rest) == [l] + Lines(rest)
  {
    var s := l + CRLF + rest;
    LineEndAt(l, CRLF + rest);
    assert s == l + (CRLF + rest);
    assert s[|l|] == '\r' && s[|l| + 1] == '\n';
    assert s[..|l|] == l;
    assert s[|l| + 2..] == rest;
  }

  /** Reading the lines of a CRLF-terminated text gives back exactly the lines that were
      written, provided none of them holds a line break. */
  lemma {:induction false} LinesOfTerminated(lines: seq<string>)
    requires forall i :: 0 <= i < |lines| ==> NoLineBreak(lines[i])
    ensures Lines(Terminated(lines)) == lines
    decreases |lines|
  {
    if lines != [] {
      TerminatedFront(lines);
      LinesCons(lines[0], Terminated(lines[1..]));
      LinesOfTerminated(lines[1..]);
    }
  }

  lemma LineEndAt(a: string, b: string)
    requires NoLineBreak(a) && b != [] && IsLineBreak(b[0])
    ensures LineEnd(a + b) == |a|
  {
    var k := LineEnd(a + b);
    assert (a + b)[|a|] == b[0];
    assert forall j :: 0 <= j < |a| ==> (a + b)[j] == a[j];
  }
}
