/** The document engine: line access, the structure scan, duplicate checks and
    the placement of new categories, subcategories and listings.

    The Java class keeps no state of its own; each of its methods works on a
    `DataFile`, so here each is a method or function taking one.  Every Java
    method re-reads the file; here that is `file.disk`.  Every write stores
    `ReadAllLines(Persist(lines))`, the lines as the next read will see them. */
module DataWriter {
  import opened Outcomes
  import opened Lines
  import opened Numbers
  import opened Formatting
  import opened Structure
  import opened Planner
  import opened DataFiles

  /** The structure lists of a data file as one value. */
  function IndexOf(file: DataFile): Index
    reads file
  {
    Index(file.categories, file.subCategories, file.pairs)
  }

  function StatusOf(failure: Option<Failure>): Status
  {
    if failure.None? then Done else Failed(failure.value)
  }

  // ---------------------------------------------------------------- files

  /** Creates (or truncates) the file and writes the header followed by "\n",
      which reads back as the header and one blank line. */
  method GenerateDataFile(file: DataFile)
    modifies file`disk, file`present
    ensures file.Valid() && file.present
    ensures file.disk == [Header, ""]
  {
    file.disk := [];
    file.present := true;
    WriteLine(file, Header + "\n");
    HeaderWrite();
  }

  /** The `DataFile` constructor: a missing file is generated, then the file is
      always scanned.  A failed scan (Java: an exception out of the
      constructor) is reported in `status`. */
  method Open(onDisk: Option<seq<string>>) returns (file: DataFile, status: Status)
    requires onDisk.Some? ==> AllNewlineFree(onDisk.value)
    ensures fresh(file) && file.Valid() && file.present
    ensures file.disk == (if onDisk.Some? then onDisk.value else [Header, ""])
    ensures var s := Scan(file.disk, |file.disk|, EmptyIndex);
      IndexOf(file) == s.index && status == StatusOf(s.failure)
    ensures onDisk.None? ==> status == Done && IndexOf(file) == EmptyIndex
  {
    file := new DataFile(onDisk);
    if !file.present {
      GenerateDataFile(file);
    }
    status := InitializeCategories(file);
    if onDisk.None? {
      FreshDocumentScan();
    }
  }

  // ---------------------------------------------------------------- lines

  /** Appends `text` as a new element; its '\n'-separated pieces become lines. */
  method WriteLine(file: DataFile, text: string)
    requires file.Valid() && file.present
    modifies file`disk
    ensures file.Valid()
    ensures file.disk == old(file.disk) + Split(text)
    ensures NewlineFree(text) ==>
      |file.disk| == old(|file.disk|) + 1 && ReadLine(file, |file.disk|) == Ok(text)
  {
    var lines := file.disk + [text];
    file.disk := ReadAllLines(Persist(lines));
    WriteThenRead(lines);
    FlattenAppend(old(file.disk), [text]);
  }

  /** Replaces the 1-based line `n` by `text`, whose '\n'-separated pieces take
      its place; fails, writing nothing, when `n` is not a line. */
  method SetLine(file: DataFile, n: int, text: string) returns (status: Status)
    requires file.Valid() && file.present
    modifies file`disk
    ensures file.Valid()
    ensures !(1 <= n <= |old(file.disk)|) ==> status == Failed(OutOfRange) && file.disk == old(file.disk)
    ensures 1 <= n <= |old(file.disk)| ==>
      status == Done && file.disk == old(file.disk)[..n - 1] + Split(text) + old(file.disk)[n..]
    ensures status == Done && NewlineFree(text) ==>
      |file.disk| == old(|file.disk|) && ReadLine(file, n) == Ok(text)
  {
    if !(1 <= n <= |file.disk|) {
      return Failed(OutOfRange);
    }
    var lines := file.disk[n - 1 := text];
    file.disk := ReadAllLines(Persist(lines));
    WriteThenRead(lines);
    FlattenReplace(old(file.disk), n - 1, text);
    status := Done;
  }

  /** The 1-based line `n`; fails when `n` is not a line. */
  function ReadLine(file: DataFile, n: int): (r: Result<string>)
    reads file
    ensures r.Ok? <==> 1 <= n <= |file.disk|
    ensures r.Ok? ==> r.value == file.disk[n - 1]
    ensures r.Err? ==> r.failure == OutOfRange
  {
    if 1 <= n <= |file.disk| then Ok(file.disk[n - 1]) else Err(OutOfRange)
  }

  /** The line count: the 1-based numbers ReadLine accepts are exactly 1..count. */
  function GetLines(file: DataFile): (count: nat)
    reads file
    ensures forall n :: ReadLine(file, n).Ok? <==> 1 <= n <= count
  {
    |file.disk|
  }

  /** The values of the digits on the 1-based line `n`, left to right. */
  method GetDigitsFromLine(file: DataFile, n: int) returns (r: Result<seq<Digit>>)
    ensures r.Ok? <==> 1 <= n <= |file.disk|
    ensures r.Ok? ==> r.value == DigitsOf(file.disk[n - 1])
    ensures r.Err? ==> r.failure == OutOfRange
  {
    if !(1 <= n <= |file.disk|) {
      return Err(OutOfRange);
    }
    var contents := file.disk[n - 1];
    var digits: seq<Digit> := [];
    var i := 0;
    while i < |contents|
      invariant 0 <= i <= |contents|
      invariant digits == DigitsOf(contents[..i])
    {
      assert contents[..i + 1][..i] == contents[..i];
      if IsDigit(contents[i]) {
        digits := digits + [DigitValue(contents[i])];
      }
      i := i + 1;
    }
    assert contents[..|contents|] == contents;
    r := Ok(digits);
  }

  /** The number the digits spell when written one after another; 0 for no
      digits; a failure when it exceeds the largest Java int. */
  function GetValueFromArrayList(digits: seq<Digit>): (r: Result<int>)
    ensures r.Ok? <==> DecimalValue(digits) <= MaxInt
    ensures r.Ok? ==> r.value == DecimalValue(digits)
    ensures r.Err? ==> r.failure == NumberFormat
    ensures |digits| == 0 ==> r == Ok(0)
  {
    if |digits| == 0 then Ok(0)
    else if DecimalValue(digits) <= MaxInt then Ok(DecimalValue(digits))
    else Err(NumberFormat)
  }

  /** A line holding one number among text without digits, as in
      "Player Health: 10hp", gives back that number. */
  lemma ValueOfEmbeddedNumber(prefix: string, n: nat, suffix: string)
    requires forall i :: 0 <= i < |prefix| ==> !IsDigit(prefix[i])
    requires forall i :: 0 <= i < |suffix| ==> !IsDigit(suffix[i])
    requires n <= MaxInt
    ensures GetValueFromArrayList(DigitsOf(prefix + Decimal(n) + suffix)) == Ok(n)
  {
    var text := Decimal(n);
    DigitsOfAppend(prefix + text, suffix);
    DigitsOfAppend(prefix, text);
    NoDigits(prefix);
    NoDigits(suffix);
    var digits := DigitsOf(text);
    assert DigitsOf(prefix + text + suffix) == digits;
    DecimalRoundTrip(n);
    assert DecimalValue(digits) == n;
  }

  lemma PlayerHealthExample()
    ensures GetValueFromArrayList(DigitsOf("Player Health: 10hp")) == Ok(10)
  {
    assert Decimal(10) == "10";
    assert "Player Health: 10hp" == "Player Health: " + Decimal(10) + "hp";
    ValueOfEmbeddedNumber("Player Health: ", 10, "hp");
  }

  /** Whether the line at 0-based `k` is a listing; fails when `k` is not a line. */
  function IsLineListing(file: DataFile, k: int): (r: Result<bool>)
    reads file
    ensures r.Ok? <==> 0 <= k < |file.disk|
    ensures r.Ok? ==> (r.value <==> IsListing(file.disk[k]))
    ensures r.Err? ==> r.failure == OutOfRange
  {
    if 0 <= k < |file.disk| then Ok(IsListing(file.disk[k])) else Err(OutOfRange)
  }

  // ---------------------------------------------------------------- structure scan

  /** Scans every line in order, appending a category per category line and a
      subcategory (and its pair) per subcategory line, as `Scan` describes. */
  method InitializeCategories(file: DataFile) returns (status: Status)
    requires file.Valid()
    modifies file`categories, file`subCategories, file`pairs
    ensures var s := Scan(file.disk, |file.disk|, old(IndexOf(file)));
      IndexOf(file) == s.index && status == StatusOf(s.failure)
  {
    var lines := file.disk;
    ghost var start := IndexOf(file);
    var i := 0;
    while i < |lines|
      invariant 0 <= i <= |lines|
      invariant file.disk == lines
      invariant Scan(lines, i, start) == ScanState(IndexOf(file), None)
    {
      ghost var before := IndexOf(file);
      var line := lines[i];
      if IsCategoryLine(line) {
        if |line| < 2 {
          ScanStops(lines, i + 1, |lines|, start);
          return Failed(MalformedMarker);
        }
        file.AddCategory(Category(Name(line)));
      }
      if IsSubCategoryLine(line) {
        if |line| < 2 {
          ScanStops(lines, i + 1, |lines|, start);
          return Failed(MalformedMarker);
        }
        var name := Name(line);
        // Java appends the subcategory first and sets its owner afterwards;
        // appending it with its owner once the owner is known ends the same way.
        var above := GetCategoryLineFromSubCategory(file, i);
        var owner := GetCategoryFromLine(file, above.value);
        assert owner == CategoryFromLine(lines, file.categories, above.value) by {
          if 1 <= above.value <= |lines| && |file.categories| > 0 {
            CategoryFromLineFinds(lines, file.categories, above.value);
            if owner.Ok? && owner.value.Some? {
              MarkerTextNames(owner.value.value, lines[above.value - 1]);
              var found := CategoryFromLine(lines, file.categories, above.value).value.value;
              MarkerTextNames(found, lines[above.value - 1]);
            }
          }
        }
        match owner {
          case Err(f) =>
            file.AddSubCategory(SubCategory(name, None));
            ScanStops(lines, i + 1, |lines|, start);
            return Failed(f);
          case Ok(None) =>
            // the owner is null: printing its name throws
            file.AddSubCategory(SubCategory(name, None));
            ScanStops(lines, i + 1, |lines|, start);
            return Failed(NullReference);
          case Ok(Some(c)) =>
            var sub := SubCategory(name, Some(c));
            file.AddSubCategory(sub);
            file.pairs := file.pairs + [(sub, c)];
        }
      }
      assert Scan(lines, i + 1, start) == ScanLine(lines, i, before);
      i := i + 1;
    }
    status := Done;
  }

  /** For the subcategory at 0-based line `k`: the 1-based number of the
      nearest category line at indices k down to 1, or 0 (CategoryLineAbove). */
  method GetCategoryLineFromSubCategory(file: DataFile, k: int) returns (r: Result<int>)
    ensures k <= 0 ==> r == Ok(0)
    ensures k >= 1 && k >= |file.disk| ==> r == Err(OutOfRange)
    ensures 0 <= k < |file.disk| ==> r == Ok(CategoryLineAbove(file.disk, k))
  {
    var lines := file.disk;
    if k >= 1 && k >= |lines| {
      return Err(OutOfRange);  // the first lookup, at index k, is out of range
    }
    var i := 0;
    while i < k
      invariant 0 <= i <= k || k <= 0
      invariant k > 0 ==> CategoryLineAbove(lines, k) == CategoryLineAbove(lines, k - i)
    {
      if IsCategoryLine(lines[k - i]) {
        return Ok(k - i + 1);
      }
      i := i + 1;
    }
    r := Ok(0);
  }

  /** The known category whose marker text is the 1-based line `n`: the first
      such in `categories`, or none; reading line `n` fails when it is not a
      line, but only once there is a category to compare it with. */
  method GetCategoryFromLine(file: DataFile, n: int) returns (r: Result<Option<Category>>)
    ensures |file.categories| == 0 ==> r == Ok(None)
    ensures |file.categories| > 0 && !(1 <= n <= |file.disk|) ==> r == Err(OutOfRange)
    ensures |file.categories| > 0 && 1 <= n <= |file.disk| ==> r.Ok?
    ensures r.Ok? && r.value.None? && 1 <= n <= |file.disk| ==>
      forall j :: 0 <= j < |file.categories| ==> MarkerText(file.categories[j]) != file.disk[n - 1]
    ensures r.Ok? && r.value.Some? ==>
      (exists j :: 0 <= j < |file.categories| &&
        r.value.value == file.categories[j] && MarkerText(file.categories[j]) == file.disk[n - 1] &&
        forall i :: 0 <= i < j ==> MarkerText(file.categories[i]) != file.disk[n - 1])
  {
    var i := 0;
    while i < |file.categories|
      invariant 0 <= i <= |file.categories|
      invariant i > 0 ==> 1 <= n <= |file.disk|
      invariant forall j :: 0 <= j < i ==> MarkerText(file.categories[j]) != file.disk[n - 1]
    {
      var line := ReadLine(file, n);
      if line.Err? {
        return Err(OutOfRange);
      }
      if MarkerText(file.categories[i]) == line.value {
        return Ok(Some(file.categories[i]));
      }
      i := i + 1;
    }
    r := Ok(None);
  }

  // ---------------------------------------------------------------- adding entries

  /** Adds a category unless one of that name (ignoring case) is already in
      the file: it is appended to `categories` and "# name\n" to the file. */
  method AddCategory(file: DataFile, category: Category) returns (status: Status)
    requires file.Valid() && file.present
    modifies file`disk, file`categories
    ensures file.Valid()
    ensures NameCheck(old(file.disk), '#', category.name).Err? ==>
      status == Failed(MalformedMarker) && file.disk == old(file.disk) && file.categories == old(file.categories)
    ensures NameCheck(old(file.disk), '#', category.name) == Ok(true) ==>
      status == AlreadyExists && file.disk == old(file.disk) && file.categories == old(file.categories)
    ensures NameCheck(old(file.disk), '#', category.name) == Ok(false) ==>
      status == Done && file.categories == old(file.categories) + [category] &&
      file.disk == old(file.disk) + Split("# " + category.name + "\n")
    ensures (exists k :: 0 <= k < |old(file.disk)| && Declares(old(file.disk)[k], '#', category.name)) ==>
      status != Done && file.disk == old(file.disk) && file.categories == old(file.categories)
    ensures status == Done && NewlineFree(category.name) ==>
      file.disk == old(file.disk) + [MarkerText(category), ""]
  {
    NameCheckMeaning(file.disk, '#', category.name);
    var found := DoesCategoryWithNameExist(file, category.name);
    if found.Err? {
      return Failed(found.failure);
    }
    if found.value {
      return AlreadyExists;
    }
    file.AddCategory(category);
    WriteLine(file, "# " + category.name + "\n");
    status := Done;
    if NewlineFree(category.name) {
      SplitAround(MarkerText(category), "");
      assert "# " + category.name + "\n" == MarkerText(category) + "\n" + "";
    }
  }

  /** Whether a category line names `name`, ignoring case (NameCheck on '#'). */
  method DoesCategoryWithNameExist(file: DataFile, name: string) returns (r: Result<bool>)
    ensures r == NameCheck(file.disk, '#', name)
  {
    r := DoesMarkerWithNameExist(file, '#', name);
  }

  /** Adds a subcategory, owned by `category`, unless one of that name
      (ignoring case) is already in the file: it is appended to
      `subCategories` and "\n- name\n" replaces the line NewObjectLine picks,
      1-based, which fails when that is not a line. */
  method AddSubCategory(file: DataFile, category: Option<Category>, subCategory: SubCategory)
      returns (status: Status)
    requires file.Valid() && file.present
    modifies file`disk, file`subCategories
    ensures file.Valid()
    ensures NameCheck(old(file.disk), '-', subCategory.name).Err? ==>
      status == Failed(MalformedMarker) && file.disk == old(file.disk) &&
      file.subCategories == old(file.subCategories)
    ensures NameCheck(old(file.disk), '-', subCategory.name) == Ok(true) ==>
      status == AlreadyExists && file.disk == old(file.disk) && file.subCategories == old(file.subCategories)
    ensures (exists k :: 0 <= k < |old(file.disk)| && Declares(old(file.disk)[k], '-', subCategory.name)) ==>
      status != Done && file.disk == old(file.disk) && file.subCategories == old(file.subCategories)
    ensures NameCheck(old(file.disk), '-', subCategory.name) == Ok(false) ==>
      file.subCategories == old(file.subCategories) + [SubCategory(subCategory.name, category)] &&
      var p := NewObjectLine(old(file.disk), file.categories, file.subCategories, category, None, false).value;
      if 1 <= p <= |old(file.disk)| then
        status == Done &&
        file.disk == old(file.disk)[..p - 1] + Split("\n- " + subCategory.name + "\n") + old(file.disk)[p..]
      else
        status == Failed(OutOfRange) && file.disk == old(file.disk)
  {
    NameCheckMeaning(file.disk, '-', subCategory.name);
    var found := DoesSubCategoryWithNameExist(file, subCategory.name);
    if found.Err? {
      return Failed(found.failure);
    }
    if found.value {
      return AlreadyExists;
    }
    file.AddSubCategory(SubCategory(subCategory.name, category));
    var line := GetLineForNewObject(file, category, None, false);
    status := SetLine(file, line.value, "\n- " + subCategory.name + "\n");
  }

  /** Whether a subcategory line names `name`, ignoring case (NameCheck on '-'). */
  method DoesSubCategoryWithNameExist(file: DataFile, name: string) returns (r: Result<bool>)
    ensures r == NameCheck(file.disk, '-', name)
  {
    r := DoesMarkerWithNameExist(file, '-', name);
  }

  /** The loop both name checks run: lines 1, 2, ... in order. */
  method DoesMarkerWithNameExist(file: DataFile, marker: char, name: string) returns (r: Result<bool>)
    ensures r == NameCheck(file.disk, marker, name)
  {
    var i := 0;
    while i < GetLines(file)
      invariant 0 <= i <= |file.disk|
      invariant NameCheck(file.disk, marker, name) == NameCheck(file.disk[i..], marker, name)
    {
      var line := ReadLine(file, i + 1).value;
      assert file.disk[i..][1..] == file.disk[i + 1..];
      if |line| > 0 && line[0] == marker {
        if |line| < 2 {
          return Err(MalformedMarker);  // substring(2) of a one-character line
        }
        if EqualsIgnoreCase(line[2..], name) {
          return Ok(true);
        }
      }
      i := i + 1;
    }
    r := Ok(false);
  }

  /** Writes `contents` followed by "\n" over the line NewObjectLine picks,
      1-based; fails when that lookup fails or its answer is not a line. */
  method AddListing(file: DataFile, category: Option<Category>, subCategory: Option<SubCategory>,
                    contents: string) returns (status: Status)
    requires file.Valid() && file.present
    modifies file`disk
    ensures file.Valid()
    ensures var p := NewObjectLine(old(file.disk), file.categories, file.subCategories, category, subCategory, false);
      (p.Err? ==> status == Failed(p.failure) && file.disk == old(file.disk)) &&
      (p.Ok? && 1 <= p.value <= |old(file.disk)| ==>
        status == Done && file.disk == old(file.disk)[..p.value - 1] + Split(contents + "\n") + old(file.disk)[p.value..]) &&
      (p.Ok? && !(1 <= p.value <= |old(file.disk)|) ==>
        status == Failed(OutOfRange) && file.disk == old(file.disk))
  {
    var line := GetLineForNewObject(file, category, subCategory, false);
    if line.Err? {
      return Failed(line.failure);
    }
    status := SetLine(file, line.value, contents + "\n");
  }

  /** The line a new entry goes to (see NewObjectLine).  `tableListing` says
      whether a table listing was given; every caller passes none. */
  method GetLineForNewObject(file: DataFile, category: Option<Category>, subCategory: Option<SubCategory>,
                             tableListing: bool) returns (r: Result<int>)
    ensures r == NewObjectLine(file.disk, file.categories, file.subCategories, category, subCategory, tableListing)
  {
    var lines := file.disk;
    if category.None? {
      return Ok(|lines|);
    }
    if !tableListing {
      if subCategory.None? {
        var i := 0;
        while i < |file.categories|
          invariant 0 <= i <= |file.categories|
          invariant forall j :: 0 <= j < i ==> file.categories[j].name != category.value.name
        {
          if file.categories[i].name == category.value.name {
            ghost var names := Names(file.categories);
            assert names[i] == category.value.name;
            assert FirstIndex(names, category.value.name) == Some(i);
            if |file.categories| > i + 1 {
              var p := GetCategoryLine(file, file.categories[i + 1]);
              return Ok(p);
            } else {
              return Ok(|lines|);
            }
          }
          i := i + 1;
        }
        assert category.value.name !in Names(file.categories);
      } else {
        var i := 0;
        while i < |file.subCategories|
          invariant 0 <= i <= |file.subCategories|
          invariant subCategory.value.owner.None? ==>
            forall j :: 0 <= j < i ==> file.subCategories[j].name != subCategory.value.name
        {
          if file.subCategories[i].name == subCategory.value.name {
            if subCategory.value.owner.None? {
              return Err(NullReference);  // the given subcategory's owner is printed
            }
          }
          i := i + 1;
        }
      }
    }
    r := Ok(0);
  }

  /** The 0-based index of the first line that is the category's marker text, or 0. */
  method GetCategoryLine(file: DataFile, category: Category) returns (r: nat)
    ensures MarkerText(category) in file.disk ==>
      r < |file.disk| && file.disk[r] == MarkerText(category) &&
      forall j :: 0 <= j < r ==> file.disk[j] != MarkerText(category)
    ensures MarkerText(category) !in file.disk ==> r == 0
  {
    var lines := file.disk;
    var i := 0;
    while i < |lines|
      invariant 0 <= i <= |lines|
      invariant forall j :: 0 <= j < i ==> lines[j] != MarkerText(category)
    {
      if lines[i] == MarkerText(category) {
        return i;
      }
      i := i + 1;
    }
    r := 0;
  }

  /** The 1-based number of the first line that is "- " followed by the
      subcategory's name, or 0. */
  method GetSubCategoryLine(file: DataFile, subCategory: SubCategory) returns (r: nat)
    ensures SubMarkerText(subCategory) in file.disk ==>
      1 <= r <= |file.disk| && file.disk[r - 1] == SubMarkerText(subCategory) &&
      forall j :: 0 <= j < r - 1 ==> file.disk[j] != SubMarkerText(subCategory)
    ensures SubMarkerText(subCategory) !in file.disk ==> r == 0
  {
    var lines := file.disk;
    var i := 0;
    while i < |lines|
      invariant 0 <= i <= |lines|
      invariant forall j :: 0 <= j < i ==> lines[j] != SubMarkerText(subCategory)
    {
      if lines[i] == SubMarkerText(subCategory) {
        return i + 1;
      }
      i := i + 1;
    }
    r := 0;
  }
}
