# TH-Data document engine in Dafny

TH-Data stores game data in plain text "data files". The first line of a
generated file is the header `@th-data file`. A line starting with `#` is a
category marker, and a line starting with `-` is a subcategory marker of the
category above it. In both cases the name is everything after the first two
characters, so `#foo` names the category `oo`, and a bare `#` or `-` cannot
be read. Every other non-blank line except the header is a listing.

This project models the document engine of the Java library:

- `DataFile` (`src/com/thom/datawriter/DataFile.java`) is a file handle. It
  carries the in-memory lists of categories, subcategories and
  subcategory-to-category pairs.
- `DataWriter` (`src/com/thom/datawriter/DataWriter.java`) works on that
  handle. It generates files, reads and rewrites single lines, extracts
  digits, rebuilds the lists by scanning the file, checks names for
  duplicates and places new categories, subcategories and listings.

Modules:

- `Outcomes`: `Option`, `Result`, `Status` and the runtime `Failure`s. A Java
  exception becomes a returned failure:
  - `OutOfRange`: an index outside a list.
  - `NullReference`: a null category was dereferenced.
  - `MalformedMarker`: `substring(2)` was taken of a one-character marker line.
  - `NumberFormat`: `Integer.valueOf` overflowed.
- `Lines`: how `Files.write` and `Files.readAllLines` see the file.
  - An element written with an embedded `'\n'` reads back as several lines:
    `ReadAllLines(Persist(L)) == Flatten(L)`.
  - ASCII case folding, and the first index of an element.
- `Numbers`: digit extraction and the number a digit list spells.
- `Formatting`: the `Category` and `SubCategory` records and the line grammar.
- `Structure`: the structure scan as a function (`Scan`, failures included)
  and as the index of a well-formed document (`Expected`). `ScanMeaning`
  proves that they agree.
- `Planner`: the duplicate-name check and the choice of the line a new entry
  is written at, as functions.
- `DataFiles`: class `DataFile`. Its fields hold the lines on disk and the
  three lists.
- `DataWriter`: the engine's operations, as methods on a `DataFile`. Each one
  is proved against the functions above.

Behaviour of the code worth knowing:

- A generated file reads back as two lines, the header and a blank line,
  because the header is written with a trailing `"\n"`.
- A category is written as `"# name\n"`, so it adds two lines.
- A subcategory replaces one existing line with three: a blank line,
  `- name` and a blank line (`Planner.SubCategoryWrite`). The line it
  replaces is the one before the next category's marker line, or the last
  line of the file.
- A subcategory with no category line above it makes the scan fail. When no
  category is known yet, printing the missing owner's name throws a null
  dereference. When categories are already known, the owner lookup reads
  line 0 and fails out of range. That happens, for example, when the only
  category line is the first line of the file, which the lookup never
  examines (`Structure.OrphanUnderFirstLine`).
- Placing a listing under a subcategory never finds a line. The lookup
  answers 0, which the later write rejects as out of range. If a known
  subcategory has the requested name and the given subcategory has no owner,
  it fails with a null dereference.

## Model

| member | source | states |
|---|---|---|
| Lines.Split | src/com/thom/datawriter/DataWriter.java:110-113 | the lines a text reads back as: at least one, none holding a terminator, and the text itself when it holds none |
| Lines.JoinSplit | src/com/thom/datawriter/DataWriter.java:110-113 | splitting at '\n' loses nothing: joining the pieces gives back the text |
| Lines.SplitAround | src/com/thom/datawriter/DataWriter.java:49-56 | a '\n' separates the lines on its two sides |
| Lines.Flatten | src/com/thom/datawriter/DataWriter.java:49-56 | after a write, every stored line is terminator-free, and a list without terminators is kept as it is |
| Lines.FlattenAppend | src/com/thom/datawriter/DataWriter.java:49-56 | appending an element splits only that element |
| Lines.FlattenReplace | src/com/thom/datawriter/DataWriter.java:61-68 | replacing one line of a read-back file by a text splices in that text's pieces and keeps every other line |
| Lines.PersistJoin | src/com/thom/datawriter/DataWriter.java:55 | the written text is the elements joined by terminators plus a final terminator |
| Lines.WriteThenRead | src/com/thom/datawriter/DataWriter.java:49-56 | writing a list of elements and reading the file back gives the elements split at their '\n's |
| Lines.FirstIndex | src/com/thom/datawriter/DataWriter.java:376-383 | none exactly when the element is absent; otherwise a position holding it, with no earlier position holding it |
| Numbers.DigitChar | src/com/thom/datawriter/DataWriter.java:90-92 | the character of a digit is a digit character with that value |
| Numbers.DigitsOfAppend | src/com/thom/datawriter/DataWriter.java:88-94 | the digits of a concatenation are the digits of its parts, in order |
| Numbers.NoDigits | src/com/thom/datawriter/DataWriter.java:88-94 | text without digit characters contributes no digits |
| Numbers.DecimalRoundTrip | src/com/thom/datawriter/DataWriter.java:102-108 | reading back the digits of a number's decimal text gives the number |
| Formatting.HeaderWrite | src/com/thom/datawriter/DataWriter.java:25 | the header written with "\n" reads back as the header and one blank line |
| Formatting.MarkerTextOfName | src/com/thom/datawriter/DataWriter.java:147 | a marker line is the marker text of the category it names iff it starts with "# " |
| Formatting.MarkerTextNames | src/com/thom/datawriter/DataWriter.java:190-192 | a line equal to a category's marker text starts with "# " and names exactly that category |
| Structure.CategoryLineAbove | src/com/thom/datawriter/DataWriter.java:172-184 | the owner lookup answers a line number at most one past the subcategory's index |
| Structure.CategoryLineAboveIsNearest | src/com/thom/datawriter/DataWriter.java:172-184 | 0 iff no category line lies at indices 1..k; otherwise the 1-based number of the nearest category line at or above k, with none between |
| Structure.CategoryLineAbovePrefix | src/com/thom/datawriter/DataWriter.java:172-184 | lines appended below a subcategory do not change its owner lookup |
| Structure.CategoryListed | src/com/thom/datawriter/DataWriter.java:145-148 | every category line of a cleanly scanning document has a name and puts its category into the index |
| Structure.ScanStops | src/com/thom/datawriter/DataWriter.java:139-166 | once the scan has thrown, the remaining lines change nothing |
| Structure.CategoryFromLineFinds | src/com/thom/datawriter/DataWriter.java:186-198 | with categories known and the line present, the lookup succeeds, and it finds a category iff some known category's marker text is that line, and then that category |
| Structure.ScanMeaning | src/com/thom/datawriter/DataWriter.java:139-166 | the scan succeeds iff every marker has a name and, for every subcategory, the nearest `#` line at index 1 or later exists and starts with "# "; then it adds exactly the index the document describes |
| Structure.ExpectedPrefix | src/com/thom/datawriter/DataWriter.java:139-166 | appending lines keeps the cleanly scanning prefix clean, and keeps its index |
| Structure.ReloadAfterAddCategory | src/com/thom/datawriter/DataWriter.java:204-215 | re-scanning a document after a category whose name has no '\n' was written ("# name" and a blank line) finds the old index with that category appended, as the in-memory list has it |
| Structure.ListingsAreSkipped | src/com/thom/datawriter/DataWriter.java:143-165 | a listing line adds nothing to the index and never fails |
| Structure.FreshDocumentScan | src/com/thom/datawriter/DataFile.java:28-33 | a generated document scans to an empty index without failure |
| Structure.OrphanUnderFirstLine | src/com/thom/datawriter/DataWriter.java:172-198 | a subcategory whose only category line is the first line fails the scan out of range, after the subcategory was listed without an owner |
| Structure.ScanExample | src/com/thom/datawriter/DataWriter.java:151-163 | a subcategory right under a category is owned by it and paired with it |
| Planner.NameCheckMeaning | src/com/thom/datawriter/DataWriter.java:220-235 | false iff no line declares the name (ignoring case) and no line is a bare marker; true only if some line declares it; failure only on a bare marker |
| Planner.PlacementUnderCategory | src/com/thom/datawriter/DataWriter.java:304-321 | a category gets its new entries at the first marker line of the next category, at the line count if it is last, or at 0 if that marker is missing |
| Planner.SubCategoryWrite | src/com/thom/datawriter/DataWriter.java:248 | the subcategory write grows the file by two lines: the lines before are kept, then a blank line, the marker and a blank line, then the rest |
| DataFiles.DataFile.constructor | src/com/thom/datawriter/DataFile.java:17-24 | a handle on the file's lines, or on a missing file, with all three lists empty |
| DataFiles.DataFile.AddCategory | src/com/thom/datawriter/DataFile.java:39-42 | appends the category; the last element is then that category |
| DataFiles.DataFile.GetCategory | src/com/thom/datawriter/DataFile.java:44-47 | the element at an index in range; out of range otherwise |
| DataFiles.DataFile.AddSubCategory | src/com/thom/datawriter/DataFile.java:49-52 | appends the subcategory; the last element is then that subcategory |
| DataFiles.DataFile.GetSubCategory | src/com/thom/datawriter/DataFile.java:54-57 | the element at an index in range; out of range otherwise |
| DataWriter.GenerateDataFile | src/com/thom/datawriter/DataWriter.java:20-33 | the file exists and reads back as the header and a blank line |
| DataWriter.Open | src/com/thom/datawriter/DataFile.java:22-37 | a missing file is generated, and the lists are what the scan of the file yields; a missing file opens cleanly with empty lists |
| DataWriter.WriteLine | src/com/thom/datawriter/DataWriter.java:49-56 | the file gains the text's lines at the end; a single-line text becomes the new last line |
| DataWriter.SetLine | src/com/thom/datawriter/DataWriter.java:61-68 | out of range: failure, nothing written; otherwise the line is replaced by the text's lines and the rest is kept; a single-line text leaves the line count alone and reads back at that line |
| DataWriter.ReadLine | src/com/thom/datawriter/DataWriter.java:73-76 | the 1-based line, iff it exists; out of range otherwise |
| DataWriter.GetLines | src/com/thom/datawriter/DataWriter.java:118-121 | the count is exactly the range of line numbers ReadLine accepts |
| DataWriter.GetDigitsFromLine | src/com/thom/datawriter/DataWriter.java:81-96 | the line's digit values left to right, iff the line exists |
| DataWriter.GetValueFromArrayList | src/com/thom/datawriter/DataWriter.java:102-108 | 0 for no digits; otherwise the number the digits spell iff it fits in an int, a number-format failure if not |
| DataWriter.ValueOfEmbeddedNumber | src/com/thom/datawriter/DataWriter.java:98-108 | a line holding one number amid digit-free text yields that number |
| DataWriter.PlayerHealthExample | src/com/thom/datawriter/DataWriter.java:99-100 | "Player Health: 10hp" yields 10 |
| DataWriter.IsLineListing | src/com/thom/datawriter/DataWriter.java:357-370 | for an existing 0-based line: true iff it is not a marker, not blank and not the header; out of range otherwise |
| DataWriter.InitializeCategories | src/com/thom/datawriter/DataWriter.java:139-166 | the lists become what Scan yields from them, and the status is the scan's failure or success |
| DataWriter.GetCategoryLineFromSubCategory | src/com/thom/datawriter/DataWriter.java:172-184 | 0 for index 0 or below; out of range past the end; otherwise the nearest category line at or above the index, as CategoryLineAbove |
| DataWriter.GetCategoryFromLine | src/com/thom/datawriter/DataWriter.java:186-198 | no category when none is known; out of range for a missing line; otherwise the first known category whose marker text is the line, or none if no marker text matches |
| DataWriter.AddCategory | src/com/thom/datawriter/DataWriter.java:204-215 | a name already declared (ignoring case) changes nothing; otherwise the category is appended and the file gains "# name" and a blank line |
| DataWriter.DoesCategoryWithNameExist | src/com/thom/datawriter/DataWriter.java:220-235 | the duplicate check over '#' lines, as NameCheck |
| DataWriter.AddSubCategory | src/com/thom/datawriter/DataWriter.java:241-254 | a name already declared changes nothing; otherwise the subcategory is appended with its owner and written over the line NewObjectLine picks, failing if that is not a line |
| DataWriter.DoesSubCategoryWithNameExist | src/com/thom/datawriter/DataWriter.java:259-274 | the duplicate check over '-' lines, as NameCheck |
| DataWriter.DoesMarkerWithNameExist | src/com/thom/datawriter/DataWriter.java:222-234 | the loop over lines 1..count agrees with NameCheck |
| DataWriter.AddListing | src/com/thom/datawriter/DataWriter.java:279-282 | the contents are written over the line NewObjectLine picks; its failure, or a missing line, writes nothing |
| DataWriter.GetLineForNewObject | src/com/thom/datawriter/DataWriter.java:295-355 | the placement NewObjectLine defines, with its null-owner failure |
| DataWriter.GetCategoryLine | src/com/thom/datawriter/DataWriter.java:372-384 | the first 0-based index of the category's marker line, or 0 if there is none |
| DataWriter.GetSubCategoryLine | src/com/thom/datawriter/DataWriter.java:386-398 | the first 1-based number of the subcategory's marker line, or 0 if there is none |

## Left out

- Input and output. The file is a field holding its lines, and whether the
  file exists is a flag. `IOException`, directories, file names and paths
  are not modelled.
- `doesFileExist` is the `present` flag. A directory of that name is treated
  as a missing file.
- Line terminators other than `'\n'`. `Files.readAllLines` also ends lines
  at `'\r'` and `"\r\n"`, and `Files.write` uses the platform separator.
  Only `'\n'` is modelled.
- `countLines`: it only prints the line count. Every `System.out.println`
  and stack trace is left out as output.
- `getDataFileContents` is the `disk` field itself.
- The table-listing branch of `getLineForNewObject` is empty in the source
  and answers 0. `TableListing` and every commented-out method are not part
  of this model.
- `Category`, `SubCategory` and `Listing` internals are reduced to what the
  engine uses: a name, an owner, and the contents string.
- The `objToAdd` parameter of `getLineForNewObject` and the `subCategory`
  parameter of `getCategoryLineFromSubCategory` are never read, and are
  dropped.
- The list of one-entry `HashMap`s is a sequence of pairs. Hashing and
  equality of the Java objects are not modelled.
- Object identity and aliasing: `addSubCategory` sets the owner on the
  caller's object. Here the stored record carries the owner.
- DataFiles.DataFile.constructor: scanning and creating the file are done by
  `DataWriter.Open`, because the two modules cannot import each other. A scan
  failure, which escapes the Java constructor as an exception, is Open's
  returned status.
- GetDigitsFromLine: only the ASCII digits '0'..'9' count. `Character.isDigit`
  also accepts other Unicode digits.
- Formatting.Name: a Dafny string is a sequence of Unicode scalar values,
  while Java's `length()` and `substring(2)` count UTF-16 code units. A marker
  whose second character lies outside the Basic Multilingual Plane therefore
  yields a different name. Java keeps the low surrogate as the name's first
  unit, and the model drops the whole character. No failure path differs.
- EqualsIgnoreCase: only ASCII letters are folded. `String.equalsIgnoreCase`
  folds all of Unicode.
- GetValueFromArrayList: its argument is a list of single digits, as
  `getDigitsFromLine` produces. Java accepts any integer list, whose printed
  form might carry signs or several digits per element.
