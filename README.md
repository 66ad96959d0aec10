# ScrapingYA in Dafny

A model of ScrapingYA, a Spring Boot command-line application that scrapes Yahoo!
Auctions. It reads a comma-separated list of seller handles from `./in/seller.csv`. For each
handle it asks for the seller's product count and walks the seller's listing pages 50
products at a time. For each page it makes `./out/<seller>/<page>`, writes a CSV file and
starts a job that downloads the products' images. The model covers:

- the Yahoo! Auctions repository (`YARepository`): the seller-page and item-page URLs, price
  parsing, the product total, the (id, category) pairs of a listing page, and the product
  built from a detail page;
- the service (`YAService`): walking a seller's pages and collecting its products, and
  saving the products' images under the extensions `jpg`, `jpeg` and `png`;
- the two CSV writers (`CsvService`, `CsvCreatorService`) and the seller-list reader;
- the line reader `CsvFileReaderUtil`;
- the application's `run` loop (`App`).

Shared pieces:

- `Wrappers`: `Option`, `Result` and the Java exceptions the code can raise.
- `Text`: the Java string operations the code relies on, on `seq<char>`. These are
  `String.split` on one character (trailing empty fields dropped), `trim`, `indexOf`,
  decimal rendering, `replaceAll("\\D", "")` and `readLine` line splitting.
- `Model`: the product, the seller and the CSV row data.
- `FileStore`: a disk of directories and files with a set of paths whose I/O fails. Its
  class `FileSystem` has the `Files.exists`, `Files.createDirectory`,
  `Files.createDirectories` and `FileWriter` operations the code calls.

Web pages, image decoding and the clock are parameters: functions that return a `Result`.
Each stateful Java method is a Dafny method proved equal to a specification function on the
disk state. The properties are lemmas about those functions.

## Model

| member | source | states |
|---|---|---|
| Text.Split | src/main/java/jp/co/tk/domain/service/CsvService.java:106 | splitting on a character absent from the string gives the string itself; otherwise the fields between delimiters with trailing empty fields dropped |
| Text.JoinFields | src/main/java/jp/co/tk/domain/service/CsvService.java:106 | splitting fields joined by a delimiter they do not contain gives back exactly those fields |
| Text.FieldsJoin | src/main/java/jp/co/tk/domain/service/CsvService.java:106 | joining the fields of any string on its delimiter restores the string |
| Text.LastSplitElement | src/main/java/jp/co/tk/domain/service/YAService.java:127-128 | when the string does not end in the delimiter, split keeps every field and its last element is the non-empty text after the last delimiter |
| Text.FirstSplitField | src/main/java/jp/co/tk/domain/repo/YAReoisitoryImpl.java:186 | the first element of a split is the non-empty text before the first delimiter |
| Text.KeepsLastNonEmpty | src/main/java/jp/co/tk/domain/service/CsvService.java:106 | a field list that ends in a non-empty field loses nothing to the trailing-empty rule |
| Text.DropTrailingEmpty | src/main/java/jp/co/tk/domain/service/CsvService.java:106 | the result is a prefix of the fields that does not end in an empty field, and only empty fields are dropped |
| Text.AfterLast | src/main/java/jp/co/tk/domain/service/YAService.java:127-128 | the result is a suffix that does not contain the delimiter and is preceded by the delimiter unless it is the whole string |
| Text.AfterLastAppend | src/main/java/jp/co/tk/domain/service/YAService.java:127-128 | the text after the last delimiter of `p + d + q` is `q` when `q` lacks the delimiter |
| Text.LastFieldIsAfterLast | src/main/java/jp/co/tk/domain/service/YAService.java:127-128 | the last field is the text after the last delimiter |
| Text.LastIndexOf | src/main/java/jp/co/tk/domain/service/YAService.java:127-128 | the result is -1 or an index holding the character, and no later index holds it |
| Text.LastIndexOfUnique | src/main/java/jp/co/tk/domain/service/YAService.java:127-128 | any index meeting that description is the last index |
| Text.IndexOf | src/main/java/jp/co/tk/domain/repo/YAReoisitoryImpl.java:255 | the result is -1 or an index holding the character, and no earlier index holds it |
| Text.IsWhitespace | src/main/java/jp/co/tk/domain/repo/YAReoisitoryImpl.java:151 | `Character.isWhitespace`: the Unicode space, line and paragraph separators except the no-break spaces, TAB to CR, and FS to US |
| Text.IsBlank | src/main/java/jp/co/tk/domain/repo/YAReoisitoryImpl.java:151 | `StringUtils.isBlank`: empty or every character whitespace |
| Text.Leading | src/main/java/jp/co/tk/App.java:85 | the first loop of `String.trim`: everything skipped from `st` on is at most U+0020, and it stops at the first character above U+0020 or at the end |
| Text.Trailing | src/main/java/jp/co/tk/App.java:85 | the second loop of `String.trim`: everything dropped before `len` is at most U+0020, and it stops at `st` or after a character above U+0020 |
| Text.Trim | src/main/java/jp/co/tk/App.java:85 | `String.trim` keeps a piece `s[i..j]` of the handle such that every character outside it is at most U+0020 and the piece is empty or starts and ends above U+0020 |
| Text.TrimUnique | src/main/java/jp/co/tk/App.java:85 | that description fixes the result: any piece meeting it is the trimmed string |
| Text.TrimProperties | src/main/java/jp/co/tk/App.java:85 | the trimmed string is empty or starts and ends above U+0020, and trimming twice is trimming once |
| Text.DigitsOnly | src/main/java/jp/co/tk/domain/repo/YAReoisitoryImpl.java:257 | the result has only ASCII digits, is no longer than the input, and leaves an all-digit string alone |
| Text.DigitsOnlyAppend | src/main/java/jp/co/tk/domain/repo/YAReoisitoryImpl.java:257 | removing non-digits distributes over concatenation |
| Text.NatToDecimal | src/main/java/jp/co/tk/domain/repo/YAReoisitoryImpl.java:221 | non-empty ASCII digits with no leading zero |
| Text.IntToDecimal | src/main/java/jp/co/tk/domain/repo/YAReoisitoryImpl.java:217 | `String.valueOf(int)`: digits with the value of a non-negative number, or `-` followed by the digits of its magnitude |
| Text.DecimalRoundTrip | src/main/java/jp/co/tk/domain/repo/YAReoisitoryImpl.java:257 | parsing the decimal rendering of `n` gives `n` |
| Text.IntToDecimalInjective | src/main/java/jp/co/tk/domain/repo/YAReoisitoryImpl.java:217 | two integers render the same exactly when they are equal |
| Text.DecimalLacks | src/main/java/jp/co/tk/domain/repo/YAReoisitoryImpl.java:217 | a rendered integer contains no character other than digits and `-` |
| Text.JoinLacks | src/main/java/jp/co/tk/domain/repo/YAReoisitoryImpl.java:210-221 | joining strings that lack a character, with another delimiter, gives a string lacking it |
| Text.Lines | src/main/java/jp/co/tk/util/CsvFileReaderUtil.java:35 | the lines `readLine` returns contain no line break, and there are none exactly for empty text |
| Text.LineEnd | src/main/java/jp/co/tk/util/CsvFileReaderUtil.java:35 | the first line break, or the end of the text |
| Text.LinesCons | src/main/java/jp/co/tk/util/CsvFileReaderUtil.java:35 | text `l` followed by CRLF reads as the line `l` followed by the rest |
| Text.LinesOfTerminated | src/main/java/jp/co/tk/util/CsvFileReaderUtil.java:35 | lines without breaks written each followed by CRLF read back as the same lines |
| Text.TerminatedFront | src/main/java/jp/co/tk/domain/service/CsvService.java:84-90 | CRLF-terminated text starts with its first line and CRLF |
| Text.Terminators | src/main/java/jp/co/tk/util/CsvFileReaderUtil.java:59 | the number of line terminators: every CR, and every LF not right after a CR |
| Text.OpenLastLine | src/main/java/jp/co/tk/util/CsvFileReaderUtil.java:59 | the text is non-empty and does not end in a line break |
| Text.TerminatorsSkip | src/main/java/jp/co/tk/util/CsvFileReaderUtil.java:59 | counting terminators from position `k` on adds up with those before it |
| Text.LineCount | src/main/java/jp/co/tk/util/CsvFileReaderUtil.java:59 | `readLine` returns one line per terminator, plus one for an unterminated last line |
| Model.AsCsvProduct | src/main/java/jp/co/tk/domain/model/YAProduct.java:61-72 | a product's CSV row has no data (`csvData` returns `null`), and its header splits into the 15 columns |
| Model.HeaderColumns | src/main/java/jp/co/tk/domain/model/YAProduct.java:21 | the CSV header has 15 comma-separated columns |
| Model.NoCommaInColumns | src/main/java/jp/co/tk/domain/model/YAProduct.java:21 | no header column contains a comma |
| Model.AddProduct | src/main/java/jp/co/tk/domain/service/YAService.java:90 | `HashSet.add` keyed on the auction id: a product whose id is present leaves the set unchanged, otherwise it is appended; unique ids stay unique |
| Model.AddProductMembers | src/main/java/jp/co/tk/domain/service/YAService.java:90 | after the add a product with the added id is present, and nothing is lost or invented |
| Model.AddProductAsWritten | src/main/java/jp/co/tk/domain/model/YAProduct.java:15 | with equality on no fields, a set never grows beyond one product |
| Model.AsWrittenEqualityCollapses | src/main/java/jp/co/tk/domain/model/YAProduct.java:15 | two products with different ids collapse to one as written, but are both kept when keyed on the id |
| FileStore.Parent | src/main/java/jp/co/tk/domain/service/CsvCreatorService.java:72-74 | a path with a separator is its parent, `/`, and its last segment |
| FileStore.Ancestors | src/main/java/jp/co/tk/App.java:94 | the proper ancestors of a path, outermost first, each shorter than the path |
| FileStore.Lineage | src/main/java/jp/co/tk/App.java:94 | the ancestors followed by the path itself |
| FileStore.LineageNested | src/main/java/jp/co/tk/App.java:94 | the lineage starts below `.`, and each entry is the parent of the next |
| FileStore.CanCreateAll | src/main/java/jp/co/tk/App.java:93-95 | the condition for `createDirectories`: no file at the path or any ancestor, and no missing ancestor or path with an I/O error |
| FileStore.CreateDirectoryOn | src/main/java/jp/co/tk/domain/service/CsvCreatorService.java:73-75 | `Files.createDirectory` succeeds exactly when nothing is at the path, its parent exists and no I/O error occurs; it adds exactly that directory |
| FileStore.CreateDirectoriesOn | src/main/java/jp/co/tk/App.java:93-95 | `Files.createDirectories` succeeds exactly when no file stands at the path or at any ancestor, the path has no I/O error and no missing ancestor has one; it fails with the path's `IOException` otherwise; files stay, directories are only added, and after a success the path is a directory |
| FileStore.FirstBlocked | src/main/java/jp/co/tk/App.java:94 | the position of the first lineage entry that stops `createDirectories` (a file there, or an I/O error at the path or at a directory to be made), or the length when none does |
| FileStore.UnblockedIffCanCreateAll | src/main/java/jp/co/tk/App.java:94 | no lineage entry blocks exactly when `createDirectories` can make the path |
| FileStore.CreateDirectoriesStopsAtBlock | src/main/java/jp/co/tk/App.java:94 | the call succeeds exactly when no entry blocks; every entry before the first blocking one is a directory afterwards, and every directory made lies before it |
| FileStore.CreateDirectoriesMakesLineage | src/main/java/jp/co/tk/App.java:94 | only the path and directories above it (never the working directory) are made; after a success the path and every directory above it exist |
| FileStore.CreateDirectoriesKeepsPartial | src/main/java/jp/co/tk/App.java:94 | with an I/O error at `top/s` on an empty disk, making `top/s/leaf` fails, `top` has been created and stays, and `top/s` has not |
| FileStore.LineagePrefix | src/main/java/jp/co/tk/App.java:94 | the entries of a lineage before an entry are that entry's ancestors |
| FileStore.LineageAppend | src/main/java/jp/co/tk/App.java:91-92 | the lineage of `a/q`, `q` free of `/`, is the lineage of `a` followed by `a/q` |
| FileStore.TopLevelAncestors | src/main/java/jp/co/tk/App.java:91-92 | only the working directory lies above `./x` |
| FileStore.CreateDirectoriesNested | src/main/java/jp/co/tk/App.java:94 | after a successful `createDirectories` every entry of the lineage is a directory whose parent exists |
| FileStore.ParentAppend | src/main/java/jp/co/tk/App.java:94 | a path `a/q` with `q` free of `/` has parent `a`, and `a` is one of its ancestors |
| FileStore.CreateDirectoriesBlockedByFile | src/main/java/jp/co/tk/App.java:93-95 | a file at any ancestor makes `createDirectories` fail with the path's `IOException`; when every directory above that file exists, the disk is unchanged |
| FileStore.WriteOn | src/main/java/jp/co/tk/domain/service/CsvService.java:81 | opening a `FileWriter` succeeds exactly when the parent directory exists, the path is not a directory and no I/O error occurs; it replaces the file's content |
| FileStore.GuardedCreateIdempotent | src/main/java/jp/co/tk/domain/service/CsvCreatorService.java:73-75 | once created the directory exists, and a second unguarded `createDirectory` would fail |
| FileStore.FileSystem.CreateDirectory | src/main/java/jp/co/tk/domain/service/CsvCreatorService.java:74 | the disk changes as `CreateDirectoryOn` says |
| FileStore.FileSystem.CreateDirectories | src/main/java/jp/co/tk/App.java:94 | the result and the disk change as `CreateDirectoriesOn` says: the lineage is created outermost first up to the first entry that blocks, and what was made before a failure stays |
| FileStore.FileSystem.Write | src/main/java/jp/co/tk/domain/service/CsvService.java:81-92 | the disk changes as `WriteOn` says |
| FileStore.FileSystem.PathExists | src/main/java/jp/co/tk/App.java:93 | `Files.exists`: true exactly when a directory or a file is at the path |
| YARepository.CreateSellerUrl | src/main/java/jp/co/tk/domain/repo/YAReoisitoryImpl.java:204-227 | the seller page URL is the seller path, `?`, and the parameters `sid`, `b` and `n` joined by `&` |
| YARepository.SellerUrl | src/main/java/jp/co/tk/domain/repo/YAReoisitoryImpl.java:204-227 | the listing URL: seller path, `?sid=<seller>&b=<max(offset, 1)>&n=<limit>` (properties in the rows below) |
| YARepository.SellerUrlJoinsParams | src/main/java/jp/co/tk/domain/repo/YAReoisitoryImpl.java:204-227 | the appended URL equals path, `?` and the joined parameter list |
| YARepository.SellerUrlQuery | src/main/java/jp/co/tk/domain/repo/YAReoisitoryImpl.java:210-221 | for a handle without `?` and `&`, parsing the query gives back the three parameters, and `b` is the decimal of `max(offset, 1)` |
| YARepository.ParamsLack | src/main/java/jp/co/tk/domain/repo/YAReoisitoryImpl.java:210-221 | no parameter contains `?` or `&` when the handle does not |
| YARepository.SellerUrlOffsetClamp | src/main/java/jp/co/tk/domain/repo/YAReoisitoryImpl.java:217 | offsets of at most 1 give the URL of offset 1, and distinct offsets of at least 1 give distinct URLs |
| YARepository.SellerUrlExample | src/test/java/jp/co/tk/domain/repo/YAReoisitoryImplTest.java:34-39 | offsets 0 and 1 give the same URL for `tomomooo0716`, with `b=1&n=100` |
| YARepository.CreateItemUrl | src/main/java/jp/co/tk/domain/repo/YAReoisitoryImpl.java:236-246 | the item URL ends with the auction id as its last segment |
| YARepository.ItemUrl | src/main/java/jp/co/tk/domain/repo/YAReoisitoryImpl.java:236-246 | the detail URL: the auction base URL, `/` and the id |
| YARepository.ItemUrlNamesAuction | src/main/java/jp/co/tk/domain/repo/YAReoisitoryImpl.java:236-246 | the item URL is the auction base URL, `/` and the id |
| YARepository.ParseDecimal | src/main/java/jp/co/tk/domain/repo/YAReoisitoryImpl.java:257 | `Long.valueOf` or `Integer.valueOf` on digits: the value when it fits the bound, `NumberFormatException` for empty input or overflow |
| YARepository.ConvertToNum | src/main/java/jp/co/tk/domain/repo/YAReoisitoryImpl.java:254-258 | `StringIndexOutOfBoundsException` exactly when the text has no `円`; otherwise a value within `long` range or `NumberFormatException` |
| YARepository.ConvertToNumReadsDigitsBeforeYen | src/main/java/jp/co/tk/domain/repo/YAReoisitoryImpl.java:255-257 | the price is the number formed by the digits before the first `円`; it fails exactly when there are none or they overflow |
| YARepository.ConvertToNumIgnoresSeparator | src/main/java/jp/co/tk/domain/repo/YAReoisitoryImpl.java:257 | a non-digit separator before `円` does not change the price |
| YARepository.ConvertToNumRoundTrip | src/main/java/jp/co/tk/domain/repo/YAReoisitoryImpl.java:254-258 | a rendered price followed by `円` and any note parses back to the price |
| YARepository.ConvertToNumExample | src/main/java/jp/co/tk/domain/repo/YAReoisitoryImpl.java:254-258 | `1,200円（税込）` is 1200 |
| YARepository.ConvertToNumWithComma | src/main/java/jp/co/tk/domain/repo/YAReoisitoryImpl.java:254-258 | `1,200円` followed by any note is 1200 |
| YARepository.ParseTotal | src/main/java/jp/co/tk/domain/repo/YAReoisitoryImpl.java:183-192 | no option texts give 0; a parsed total lies within `int` range |
| YARepository.TotalFromFirstToken | src/main/java/jp/co/tk/domain/repo/YAReoisitoryImpl.java:186-187 | the total is the digits of the first space-separated token of the first option text |
| YARepository.TotalRoundTrip | src/main/java/jp/co/tk/domain/repo/YAReoisitoryImpl.java:183-192 | an option text starting with a rendered count and a space gives that count |
| YARepository.FetchTotalNumberOfProducts | src/main/java/jp/co/tk/domain/repo/YAReoisitoryImpl.java:175-193 | fetches the seller path; a fetch error propagates, an empty option list gives 0, and a total is within `int` range |
| YARepository.CollectPairs | src/main/java/jp/co/tk/domain/repo/YAReoisitoryImpl.java:147-157 | the pairs are exactly the anchors with a non-blank id and a non-blank category, no more of them than anchors |
| YARepository.CollectPairsCollapsesRepeats | src/main/java/jp/co/tk/domain/repo/YAReoisitoryImpl.java:157 | a repeated anchor adds no pair |
| YARepository.FetchProductNameListPageBySeller | src/main/java/jp/co/tk/domain/repo/YAReoisitoryImpl.java:143-160 | fetches the seller URL for the limit and offset; a fetch error propagates; otherwise the set holds exactly the listed pairs |
| YARepository.CollectImageUrls | src/main/java/jp/co/tk/domain/repo/YAReoisitoryImpl.java:114-125 | the image URLs are exactly the non-blank sources of the image elements, without repeats |
| YARepository.FetchByProductId | src/main/java/jp/co/tk/domain/repo/YAReoisitoryImpl.java:104-137 | fetches the item URL; a fetch error, fewer than ten price texts, or an unparsable price gives the matching exception; otherwise the product has the pair, title, description, both prices and the de-duplicated image URLs |
| YAService.JavaDiv | src/main/java/jp/co/tk/domain/service/YAService.java:82 | `int` division truncating toward zero |
| YAService.PageCountAsWritten | src/main/java/jp/co/tk/domain/service/YAService.java:82 | `max(ceil(total / 100), 1)` with the `int` quotient: at least 1, exactly 1 below 200, and otherwise the number of whole pages of 100 |
| YAService.CeilPages | src/main/java/jp/co/tk/App.java:88 | at least one page, exactly one for a count of 0 or less, and otherwise the fewest pages of `size` that hold the count |
| YAService.PageCountAsWrittenDropsPartialPage | src/main/java/jp/co/tk/domain/service/YAService.java:82 | the page count as written equals the ceiling exactly when the total fits one page or is a multiple of 100; 150 gives 1 page |
| YAService.FetchOne | src/main/java/jp/co/tk/domain/service/YAService.java:87-91 | one inner iteration: the pair's detail request, then its product added to the set or the exception recorded; nothing after an exception |
| YAService.FetchAll | src/main/java/jp/co/tk/domain/service/YAService.java:87-91 | the inner loop as a left fold of `FetchOne` over the page's pairs |
| YAService.VisitPage | src/main/java/jp/co/tk/domain/service/YAService.java:84-91 | one outer iteration: the listing at limit 100 and offset `i * 100`, then its pairs; nothing after an exception |
| YAService.VisitPages | src/main/java/jp/co/tk/domain/service/YAService.java:84-92 | the outer loop as a left fold of `VisitPage` over pages `0 .. n-1` |
| YAService.WalkPages | src/main/java/jp/co/tk/domain/service/YAService.java:76-95 | no request and an empty seller for a total of 0; otherwise the seller with the collected products, or the first exception, and the requests sent |
| YAService.FindSeller | src/main/java/jp/co/tk/domain/service/YAService.java:76-95 | the walk over the page count as written |
| YAService.FindSellerIntended | src/main/java/jp/co/tk/domain/service/YAService.java:82 | the walk over `ceil(total / 100)` pages, at least one |
| YAService.FetchPairs | src/main/java/jp/co/tk/domain/service/YAService.java:86-91 | the inner loop's products, requests and exception are those of the left fold over the pairs |
| YAService.FetchAllStops | src/main/java/jp/co/tk/domain/service/YAService.java:86-91 | after an exception later pairs change nothing |
| YAService.FetchAllTrace | src/main/java/jp/co/tk/domain/service/YAService.java:86-91 | the inner loop sends no listing request, and on success it requests the details of every pair in order |
| YAService.FetchPage | src/main/java/jp/co/tk/domain/service/YAService.java:85-91 | the outer loop's body: products, requests and exception are those of `VisitPage` on the crawl so far |
| YAService.VisitPagesStops | src/main/java/jp/co/tk/domain/service/YAService.java:84-92 | after an exception later pages change nothing |
| YAService.PageRequests | src/main/java/jp/co/tk/domain/service/YAService.java:84-85 | request `i` is the listing at limit 100 and offset `i * 100` |
| YAService.Collect | src/main/java/jp/co/tk/domain/service/YAService.java:83-91 | the products added to the set have pairwise distinct ids |
| YAService.FindSellerBySellerName | src/main/java/jp/co/tk/domain/service/YAService.java:76-95 | outcome and requests are those of the walk over `max(total / 100, 1)` pages with the `int` quotient; a total of 0 returns the seller with no products and sends no request |
| YAService.FindSellerFailure | src/main/java/jp/co/tk/domain/service/YAService.java:76-95 | for the page count as written: on success every request succeeded; on an exception it is the last request's and all earlier ones succeeded |
| YAService.FindSellerListings | src/main/java/jp/co/tk/domain/service/YAService.java:82-85 | listing pages are requested in order, a prefix of the `max(total / 100, 1)` pages, and all of them on success |
| YAService.FindSellerProducts | src/main/java/jp/co/tk/domain/service/YAService.java:84-94 | for the page count as written: on success every listed pair is detail-fetched in order, and the seller holds the set built from them, with unique ids |
| YAService.FindSellerIntendedListings | src/main/java/jp/co/tk/domain/service/YAService.java:82-85 | with the intended count, listing pages are requested in order, a prefix of all `ceil(total / 100)` pages, all of them on success |
| YAService.FindSellerSkipsPartialPage | src/main/java/jp/co/tk/domain/service/YAService.java:82-85 | a total between 101 and 199, such as 150, makes the code as written request at most the first page of 100, while the intended walk requests both pages on success |
| YAService.CollectKeepsEveryId | src/main/java/jp/co/tk/domain/service/YAService.java:89-90 | every fetched product's id is in the set, and every member comes from a listed pair |
| YAService.ExtensionsExclusive | src/main/java/jp/co/tk/domain/service/YAService.java:49 | a URL ends with at most one of `jpg`, `jpeg`, `png` |
| YAService.Saveable | src/main/java/jp/co/tk/domain/service/YAService.java:126-127 | an image URL is saved when it ends with one of `jpg`, `jpeg`, `png` |
| YAService.FileName | src/main/java/jp/co/tk/domain/service/YAService.java:127-128 | the file name is the URL's non-empty last segment |
| YAService.ImagePath | src/main/java/jp/co/tk/domain/service/YAService.java:128-130 | `dirName` + `/` + the file name (properties in `YAService.ImagePathInDir`) |
| YAService.ImagePathInDir | src/main/java/jp/co/tk/domain/service/YAService.java:128-130 | the image path is a file directly inside `dirName`, named after the text of the URL after its last `/` |
| YAService.SaveAs | src/main/java/jp/co/tk/domain/service/YAService.java:127-138 | one `forEach` step: write the image in format `k` when the URL ends with it (properties in `YAService.SaveAsWrites`) |
| YAService.SaveAsWrites | src/main/java/jp/co/tk/domain/service/YAService.java:127-138 | nothing happens after an exception or when the URL does not end with the extension; a `null` image throws `IllegalArgumentException`; a decoded image is written at the image path exactly when its directory exists and nothing blocks the path, and otherwise the URL is logged and the disk is unchanged |
| YAService.SaveAsEach | src/main/java/jp/co/tk/domain/service/YAService.java:126-139 | the `forEach` over the extensions, as a left fold of `SaveAs` (properties in `YAService.SaveAsEachOnly`) |
| YAService.SaveAsEachOnly | src/main/java/jp/co/tk/domain/service/YAService.java:126-139 | a URL ending with none of the extensions leaves everything as it was; one ending with extension `k` gives exactly the step for `k`, so an image is saved in at most one format |
| YAService.SaveUrlsFailed | src/main/java/jp/co/tk/domain/service/YAService.java:118-141 | after an exception later URLs change nothing |
| YAService.SaveUrlOutcome | src/main/java/jp/co/tk/domain/service/YAService.java:121-139 | each URL is fetched; a fetch or decode error propagates; a URL without a known extension writes nothing; otherwise the image is written at the directory plus last segment, or the URL is logged when the write fails |
| YAService.SaveUrl | src/main/java/jp/co/tk/domain/service/YAService.java:121-140 | one URL: recorded as fetched, its bytes fetched and decoded (an exception ends the call), then offered to each extension in turn |
| YAService.SaveUrls | src/main/java/jp/co/tk/domain/service/YAService.java:121-141 | the inner loop as a left fold of `SaveUrl` over a product's image URLs |
| YAService.SaveProducts | src/main/java/jp/co/tk/domain/service/YAService.java:118-143 | the outer loop over the products, each product's image URLs in order |
| YAService.GenerateImgOn | src/main/java/jp/co/tk/domain/service/YAService.java:106-146 | nothing for a seller without products; otherwise `createDirectory` when the directory is missing (its exception ends the call), then every product's images |
| YAService.GenerateImgEffects | src/main/java/jp/co/tk/domain/service/YAService.java:106-146 | at most the one directory is created; no file disappears; each file written is the image path of a fetched URL with an extension; without exception every image URL of every product is fetched |
| YAService.SaveInFormat | src/main/java/jp/co/tk/domain/service/YAService.java:126-138 | one extension's write changes the disk as the specification says |
| YAService.SaveAllFormats | src/main/java/jp/co/tk/domain/service/YAService.java:126-139 | the `forEach` over the extensions changes the disk and log as the specification's fold over them |
| YAService.SaveImageUrl | src/main/java/jp/co/tk/domain/service/YAService.java:119-140 | one URL changes the disk, fetch and log lists as the specification says |
| YAService.SaveProductImages | src/main/java/jp/co/tk/domain/service/YAService.java:118-141 | one product's URL loop changes the disk as the specification says |
| YAService.SaveAllProducts | src/main/java/jp/co/tk/domain/service/YAService.java:118-143 | the loop over the products changes the disk, fetched and logged URLs as `SaveProducts` says |
| YAService.GenerateImg | src/main/java/jp/co/tk/domain/service/YAService.java:106-146 | disk, fetched and logged URLs and outcome are those of the specification; no products leaves everything unchanged |
| CsvService.CsvPath | src/main/java/jp/co/tk/domain/service/CsvService.java:72-79 | `./out/<name>/<name>-<millis>.csv`, in the order the builder appends the pieces |
| CsvService.CsvPathParts | src/main/java/jp/co/tk/domain/service/CsvService.java:72-79 | the CSV path is `./out/<name>/<name>-<millis>.csv`, whose parent is the seller's directory |
| CsvService.SellerDirParent | src/main/java/jp/co/tk/domain/service/CsvCreatorService.java:71-72 | the seller's directory lies directly in `./out` |
| CsvService.FirstAbsent | src/main/java/jp/co/tk/domain/service/CsvService.java:89 | the index of the first product without data, or the count |
| CsvService.AbsentAtUnique | src/main/java/jp/co/tk/domain/service/CsvService.java:89 | that index is unique |
| CsvService.DataLines | src/main/java/jp/co/tk/domain/service/CsvService.java:89 | one data line per product, in order |
| CsvService.WriteRows | src/main/java/jp/co/tk/domain/service/CsvService.java:82-91 | the text written is the header and CRLF, then each product's data and CRLF up to the first `null`, which raises `NullPointerException`; nothing for no products |
| CsvService.EmptyCsv | src/main/java/jp/co/tk/domain/service/CsvService.java:82-91 | no products write an empty file without error |
| CsvService.CsvLines | src/main/java/jp/co/tk/domain/service/CsvService.java:82-91 | with all data present and no line breaks, the file reads back as the header followed by one line per product |
| CsvService.CsvCrlf | src/main/java/jp/co/tk/domain/service/CsvService.java:86-90 | a non-empty CSV ends with CRLF |
| CsvService.CsvStopsAtNull | src/main/java/jp/co/tk/domain/service/CsvService.java:89 | the first `null` data stops the output after the rows before it, with `NullPointerException` |
| CsvService.SucceedsIffPresent | src/main/java/jp/co/tk/domain/service/CsvService.java:89 | writing fails exactly when some product has no data |
| CsvService.CsvProducts | src/main/java/jp/co/tk/domain/model/YAProduct.java:61-72 | each product's CSV row, in order |
| CsvService.CsvText | src/main/java/jp/co/tk/domain/service/CsvService.java:82-91 | the file text: nothing for no products; otherwise the header and each data line, CRLF-terminated, up to the first `null` data |
| CsvService.YAProductCsv | src/main/java/jp/co/tk/domain/service/CsvService.java:82-91 | for Yahoo! Auctions products the file holds only the header and CRLF, and the call fails with `NullPointerException` |
| CsvService.Create | src/main/java/jp/co/tk/domain/service/CsvService.java:70-96 | the result and disk are those of `CreateOn` |
| CsvService.CreateOn | src/main/java/jp/co/tk/domain/service/CsvService.java:70-96 | open the path (its failure is the result), write the CSV text, and fail with `NullPointerException` when some data is `null` |
| CsvService.CreateEffects | src/main/java/jp/co/tk/domain/service/CsvService.java:70-96 | succeeds exactly when the file can be opened and every product has data; directories are untouched; the file holds the CSV text whenever it opened |
| CsvService.SellerListOn | src/main/java/jp/co/tk/domain/service/CsvService.java:104-107 | reading succeeds exactly when `./in/seller.csv` is a readable file |
| CsvService.ReadSellerList | src/main/java/jp/co/tk/domain/service/CsvService.java:104-107 | the handles are the file's text split on commas |
| CsvService.SellerListRoundTrip | src/main/java/jp/co/tk/domain/service/CsvService.java:106 | comma-joined handles split back to the handles, except that trailing empty handles are dropped |
| CsvCreatorService.Create | src/main/java/jp/co/tk/domain/service/CsvCreatorService.java:60-92 | the result and disk are those of the specification: create the directory if missing, then write the CSV |
| CsvCreatorService.CreatorCreateOn | src/main/java/jp/co/tk/domain/service/CsvCreatorService.java:60-92 | `createDirectory` of `./out/<name>` only when nothing is there (its failure ends the call), then the CSV write |
| CsvCreatorService.ExistingDirUntouched | src/main/java/jp/co/tk/domain/service/CsvCreatorService.java:71-75 | an existing seller directory makes the call the plain CSV write, with directories unchanged |
| CsvCreatorService.MissingDirCreated | src/main/java/jp/co/tk/domain/service/CsvCreatorService.java:60-92 | a missing seller directory is created, the file then holds the CSV text, and the call succeeds exactly when every product has data |
| CsvFileReaderUtil.ReadText | src/main/java/jp/co/tk/util/CsvFileReaderUtil.java:31 | opening succeeds exactly for a readable text file |
| CsvFileReaderUtil.LinesRead | src/main/java/jp/co/tk/util/CsvFileReaderUtil.java:41-43 | a positive limit caps the lines read; a limit of 0 or less reads them all |
| CsvFileReaderUtil.ReadLines | src/main/java/jp/co/tk/util/CsvFileReaderUtil.java:34-44 | the loop's map is the specification map of the first lines read |
| CsvFileReaderUtil.ReadLimitOffset | src/main/java/jp/co/tk/util/CsvFileReaderUtil.java:27-48 | the result is that of `ReadLimitOffsetOn` |
| CsvFileReaderUtil.LimitOffset | src/main/java/jp/co/tk/util/CsvFileReaderUtil.java:34-44 | the lines read, numbered from 0, each split on the delimiter |
| CsvFileReaderUtil.ReadLimitOffsetOn | src/main/java/jp/co/tk/util/CsvFileReaderUtil.java:27-48 | the file's `IOException`, or the map of the lines read from the first line, whatever the offset |
| CsvFileReaderUtil.LimitOffsetContents | src/main/java/jp/co/tk/util/CsvFileReaderUtil.java:34-44 | the keys are exactly `0 .. k-1` with `k` the lines read, and key `i` holds line `i` split on the delimiter |
| CsvFileReaderUtil.OffsetIgnored | src/main/java/jp/co/tk/util/CsvFileReaderUtil.java:32 | with two lines, limit 1 and offset 1 the map still holds the first line |
| CsvFileReaderUtil.LimitOffsetSkipping | src/main/java/jp/co/tk/util/CsvFileReaderUtil.java:23 | reading after skipping `offset` lines: key `i` holds line `offset + i` |
| CsvFileReaderUtil.SkippingStartsAtOffset | src/main/java/jp/co/tk/util/CsvFileReaderUtil.java:23 | with the skip, the same input gives the second line |
| CsvFileReaderUtil.CountLinesOn | src/main/java/jp/co/tk/util/CsvFileReaderUtil.java:57-60 | `Files.lines(file).count()` succeeds exactly when the file can be read, fails with the file's `IOException` otherwise, and counts the lines `readLine` would return |
| CsvFileReaderUtil.CountLinesTerminators | src/main/java/jp/co/tk/util/CsvFileReaderUtil.java:57-60 | a readable file counts one line per terminator plus one for an unterminated last line |
| CsvFileReaderUtil.NoLimitReadsAll | src/main/java/jp/co/tk/util/CsvFileReaderUtil.java:27-60 | with a limit of 0 or less the map has one entry per counted line, and both fail on the same files |
| CsvFileReaderUtil.CountTerminated | src/main/java/jp/co/tk/util/CsvFileReaderUtil.java:57-60 | a file of CRLF-terminated lines counts as many lines as were written |
| App.EnsureDir | src/main/java/jp/co/tk/App.java:93-95 | an existing path is left alone and succeeds; a missing one succeeds exactly when `createDirectories` can make it and all its ancestors; on success the page directory exists; files stay and directories are only added |
| App.PageDir | src/main/java/jp/co/tk/App.java:91-92 | `./out/<seller>/<page>` with the platform separator |
| App.VisitPage | src/main/java/jp/co/tk/App.java:89-98 | one page: find, make the directory when missing, write the CSV, add the job; the first exception ends the seller |
| App.VisitPages | src/main/java/jp/co/tk/App.java:89-98 | pages `0 .. n-1` in order, as a left fold of `VisitPage` |
| App.ProcessPage | src/main/java/jp/co/tk/App.java:90-97 | one iteration of the page loop: result, jobs, calls and disk equal `VisitPage` on the old state |
| App.OutAbovePageDir | src/main/java/jp/co/tk/App.java:91-92 | `./out` is an ancestor of every page directory of a handle without `/` |
| App.OutAncestors | src/main/java/jp/co/tk/App.java:91 | only the working directory lies above `./out` |
| App.FailedDirEndsPage | src/main/java/jp/co/tk/App.java:93-99 | a failing directory creation that leaves the disk as it was ends the seller with that exception and adds no job |
| App.FileAtOutFailsPage | src/main/java/jp/co/tk/App.java:93-95 | a file standing at `./out` fails a page whose directory is missing with `IOException`, adding no job and changing no disk |
| App.PageCalls | src/main/java/jp/co/tk/App.java:89-90 | page `i` is found with limit 50 and offset `50 * i` |
| App.PagesCalls | src/main/java/jp/co/tk/App.java:89-98 | pages are found in order; all of them when nothing fails, and up to the failing one otherwise |
| App.PagesJobs | src/main/java/jp/co/tk/App.java:89-98 | one job per completed page, holding the seller found for that page and `./out/<seller>/<page>`; earlier jobs stay |
| App.PagesDisk | src/main/java/jp/co/tk/App.java:89-98 | directories are only added, files are untouched by the page loop's disk work, and something exists at every job's path |
| App.VisitPagesStops | src/main/java/jp/co/tk/App.java:89-98 | after an exception later pages change nothing |
| App.ProcessPages | src/main/java/jp/co/tk/App.java:89-98 | the page loop's disk, jobs, calls and exception are those of the specification |
| App.SellerProgress | src/main/java/jp/co/tk/App.java:86-98 | count the handle (its exception ends the seller), then `max(ceil(total / 50), 1)` pages |
| App.SellerPages | src/main/java/jp/co/tk/App.java:87-98 | a seller without exception is counted, then has all `max(ceil(total / 50), 1)` pages found, at least one, and one job each |
| App.ProcessSeller | src/main/java/jp/co/tk/App.java:86-98 | one seller's disk, jobs, calls and exception are those of the specification |
| App.Caught | src/main/java/jp/co/tk/App.java:99 | the exceptions the per-seller `catch` handles: `IOException` and `InterruptedException` |
| App.RunSeller | src/main/java/jp/co/tk/App.java:84-101 | one handle: trimmed and processed; a caught exception is logged and the run goes on, any other one ends it |
| App.RunSellers | src/main/java/jp/co/tk/App.java:83-102 | the handles in order, as a left fold of `RunSeller` |
| App.RunOn | src/main/java/jp/co/tk/App.java:78-107 | read the seller list (its failure escapes), then every handle |
| App.StepSeller | src/main/java/jp/co/tk/App.java:84-101 | one handle is trimmed and processed; an `IOException` or `InterruptedException` is logged against it, any other exception escapes |
| App.Run | src/main/java/jp/co/tk/App.java:78-107 | the final disk, jobs, calls, logged handles and outcome are those of the specification; a failing seller list read escapes |
| App.RunSellersStops | src/main/java/jp/co/tk/App.java:83-102 | after an escaping exception later handles change nothing |
| App.Trimmed | src/main/java/jp/co/tk/App.java:85 | each handle trimmed, in order |
| App.CountedAppend | src/main/java/jp/co/tk/App.java:87 | the counted handles of two call lists concatenate |
| App.CountedPages | src/main/java/jp/co/tk/App.java:90 | page lookups count no handle |
| App.SellerCounted | src/main/java/jp/co/tk/App.java:86-98 | one seller counts exactly its own handle |
| App.RunCountsEverySeller | src/main/java/jp/co/tk/App.java:83-102 | unless an exception escapes, every handle is counted, trimmed and in list order, including those after logged errors |
| App.RunSellerFacts | src/main/java/jp/co/tk/App.java:99-101 | one seller's calls, jobs and disk carry over, and the run goes on exactly when nothing was thrown or the exception is caught |
| App.RunKeepsJobs | src/main/java/jp/co/tk/App.java:82-104 | jobs are never withdrawn, even for sellers whose error was logged, and something exists at every job's path at the end |
| App.SellerKeepsJobs | src/main/java/jp/co/tk/App.java:86-98 | one seller keeps earlier jobs and something exists at every job's path |
| App.SellerDone | src/main/java/jp/co/tk/App.java:89-98 | the pages of one seller that completed, taken from the calls it made |
| App.SellerJobCount | src/main/java/jp/co/tk/App.java:86-98 | one seller adds one job per completed page, and all `max(ceil(total / 50), 1)` of them when nothing is thrown |
| App.RunDone | src/main/java/jp/co/tk/App.java:83-102 | the completed pages summed over the handles processed, none after an escaping exception |
| App.RunJobCount | src/main/java/jp/co/tk/App.java:83-104 | the run's new jobs are exactly the completed pages of every handle, logged ones included |
| App.RunFatalUncaught | src/main/java/jp/co/tk/App.java:99-101 | only an exception other than `IOException` and `InterruptedException` ends the run early |

## Left out

- Network access (Jsoup) is left out. Each page fetch is a function parameter that
  returns the page's extracted texts or an exception. The user-agent choice, the timeouts
  and the HTML selectors are not modelled.
- `Thread.sleep` between requests is left out. It has no effect on the data. It can throw `InterruptedException`, which App.java:99 catches. The model still covers that path, because the fetch parameters may return any exception, `Interrupted` included.
- `@Async`, `CompletableFuture` and `CompletableFuture.allOf(...).join()` are left out.
  The image jobs are recorded in order, not run concurrently. A failure surfacing at
  `join` is not modelled.
- Image decoding and encoding (`ImageIO.read`, `ImageIO.write`) are not modelled. Decoding
  is a parameter. Encoding writes the decoded bytes under the extension's format.
- Character encodings (Shift-JIS in the CSV writer and reader) are not modelled. Text is a
  sequence of characters.
- `Paths.get` normalisation is not modelled. Paths are the strings the code builds.
- `System.currentTimeMillis()` and the `file.separator` property are parameters.
- The regular-expression delimiters of `split` are modelled as one literal character.
  This covers `,`, ` ` and `/`, the delimiters the code uses.
- `HashSet` iteration order is modelled as insertion order, and the order of the listing set
  as the order the fetcher gives.
- `ModelMapper.map` is the identity on the seller.
- FileStore.CreateDirectoriesBlockedByFile: the unchanged disk is promised only when every
  directory above the file exists. The disk model does not force a tree, so a file can be
  recorded under a missing directory, and `createDirectories` then makes that directory
  before it reaches the file. On a real file system the condition always holds.
- `Files.lines` on malformed input is not modelled.
- The `JavaConfig`, `CsvCreator`, `CsvCreateSeller`, `Product` and `WebContentRepository`
  files declare configuration or interfaces only. They are not part of this model.
- App.Run: the three-argument `findSellerBySellerName` and the two-argument `csvServ.create`
  that `run` calls do not match the services' signatures. They are `Env` parameters, and
  the disk effect of the CSV call is not modelled in `run`. `yaServ.count` does match
  (YAService.java:63). It only delegates to `fetchTotalNumberOfProducts`, which is modelled
  as `YARepository.FetchTotalNumberOfProducts`. `run` keeps it as the `Env.count` parameter
  by choice, so the facts about `run` hold for any count.
- App.PageCalls: `LIMIT * i` as 32-bit `int` overflow is not modelled. It would need more
  than 40 million pages.
- YAService.CeilPages: `Math.ceil` over `double` is modelled as exact integer ceiling
  division, which takes the quotient of two `int`s as exact.
- FileStore.FileSystem.Write: opening the `FileWriter`, writing and closing it are one disk
  update. The partially written text is stored even when a write throws, as
  try-with-resources closes and flushes the writer.
- YARepository.FetchByProductId: `new URL(...)` rejecting malformed URLs
  (`MalformedURLException`) is not modelled. Every non-blank source is taken as a URL.

## Findings

| source | as written | input that shows it | evidently intended | confidence | as-written member | corrected member |
|---|---|---|---|---|---|---|
| src/main/java/jp/co/tk/domain/service/YAService.java:82 | `Math.ceil(total / limit)` divides two `int`s before `ceil` sees the value, so the partial last page is dropped | total 150 with limit 100 gives 1 page; products 101-150 are never requested | `ceil` over real division: 2 pages | not executed | YAService.FindSellerSkipsPartialPage | YAService.FindSellerIntended |
| src/main/java/jp/co/tk/util/CsvFileReaderUtil.java:32 | `setLineNumber(offset)` only renumbers the reader, so reading always starts at the first line | file `a\r\nb\r\n`, limit 1, offset 1 gives `{0: [a]}` | skip `offset` lines first: `{0: [b]}` | not executed | CsvFileReaderUtil.OffsetIgnored | CsvFileReaderUtil.LimitOffsetSkipping |
| src/main/java/jp/co/tk/domain/model/YAProduct.java:15 | `@EqualsAndHashCode(of = "id")` names a field `YAProduct` does not have, so equality compares no fields and all products are equal | two products with ids `1` and `2` added to the `HashSet` leave one product | equality on the auction id: both products kept | not executed | Model.AsWrittenEqualityCollapses | Model.AddProduct |
