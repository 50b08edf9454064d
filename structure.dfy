/** The structure scan: categories, subcategories and the subcategory-to-category
    pairs derived from the lines of a document, in document order.

    `Scan` follows the scan of the data file line by line, failures included;
    `Expected` is the index a well-formed document describes.  `ScanMeaning`
    connects the two. */
module Structure {
  import opened Outcomes
  import opened Lines
  import opened Formatting

  datatype Index = Index(
    categories: seq<Category>,
    subCategories: seq<SubCategory>,
    pairs: seq<(SubCategory, Category)>)  // the `map` list of the data file

  const EmptyIndex: Index := Index([], [], [])

  function Extend(a: Index, b: Index): Index
  {
    Index(a.categories + b.categories, a.subCategories + b.subCategories, a.pairs + b.pairs)
  }

  /** The index built so far and, if the scan stopped early, why. */
  datatype ScanState = ScanState(index: Index, failure: Option<Failure>)

  /** The owner lookup of a subcategory at 0-based index `k`: looking at lines
      k, k-1, ..., 1 (never 0), the 1-based number of the first category line
      met, or 0 if there is none. */
  function CategoryLineAbove(lines: seq<string>, k: nat): (r: nat)
    requires k < |lines|
    ensures r <= k + 1
  {
    if k == 0 then 0
    else if IsCategoryLine(lines[k]) then k + 1
    else CategoryLineAbove(lines, k - 1)
  }

  /** CategoryLineAbove is the nearest category line at indices 1..k, as a 1-based number. */
  lemma {:induction false} CategoryLineAboveIsNearest(lines: seq<string>, k: nat)
    requires k < |lines|
    ensures CategoryLineAbove(lines, k) == 0 <==> forall j :: 1 <= j <= k ==> !IsCategoryLine(lines[j])
    ensures CategoryLineAbove(lines, k) > 0 ==>
      var r := CategoryLineAbove(lines, k);
      2 <= r && IsCategoryLine(lines[r - 1]) && forall j :: r <= j <= k ==> !IsCategoryLine(lines[j])
  {
    if k > 0 && !IsCategoryLine(lines[k]) {
      CategoryLineAboveIsNearest(lines, k - 1);
    }
  }

  /** Lines appended after index k do not change the owner lookup at k. */
  lemma {:induction false} CategoryLineAbovePrefix(lines: seq<string>, more: seq<string>, k: nat)
    requires k < |lines|
    ensures CategoryLineAbove(lines + more, k) == CategoryLineAbove(lines, k)
  {
    assert (lines + more)[k] == lines[k];
    if k > 0 {
      CategoryLineAbovePrefix(lines, more, k - 1);
    }
  }

  /** The category looked up by the 1-based line number `n`: nothing when no
      category is known yet; a range failure when `n` is not a line; otherwise
      the known category whose marker text is that line, if any. */
  function CategoryFromLine(lines: seq<string>, cats: seq<Category>, n: int): Result<Option<Category>>
  {
    if |cats| == 0 then Ok(None)
    else if !(1 <= n <= |lines|) then Err(OutOfRange)
    else if StartsWith(lines[n - 1], "# ") && Category(Name(lines[n - 1])) in cats then
      Ok(Some(Category(Name(lines[n - 1]))))
    else Ok(None)
  }

  /** What the scan does with the line at 0-based index `k`. */
  function ScanLine(lines: seq<string>, k: nat, idx: Index): ScanState
    requires k < |lines|
  {
    var line := lines[k];
    if IsCategoryLine(line) then
      if |line| < 2 then ScanState(idx, Some(MalformedMarker))
      else ScanState(idx.(categories := idx.categories + [Category(Name(line))]), None)
    else if IsSubCategoryLine(line) then
      if |line| < 2 then ScanState(idx, Some(MalformedMarker))
      else
        var name := Name(line);
        match CategoryFromLine(lines, idx.categories, CategoryLineAbove(lines, k))
        case Err(f) =>
          ScanState(idx.(subCategories := idx.subCategories + [SubCategory(name, None)]), Some(f))
        case Ok(None) =>
          // the owner is null and printing its name throws
          ScanState(idx.(subCategories := idx.subCategories + [SubCategory(name, None)]), Some(NullReference))
        case Ok(Some(c)) =>
          var sub := SubCategory(name, Some(c));
          ScanState(idx.(subCategories := idx.subCategories + [sub], pairs := idx.pairs + [(sub, c)]), None)
    else ScanState(idx, None)
  }

  /** The scan of the first `n` lines, adding to `start`; it stops at the first failure. */
  function Scan(lines: seq<string>, n: nat, start: Index): ScanState
    requires n <= |lines|
  {
    if n == 0 then ScanState(start, None)
    else
      var s := Scan(lines, n - 1, start);
      if s.failure.Some? then s else ScanLine(lines, n - 1, s.index)
  }

  /** The line at index `k` is a marker with a name, and a subcategory line has
      an owner line "# ..." above it (at index 1 or later). */
  predicate ScansCleanly(lines: seq<string>, k: nat)
    requires k < |lines|
  {
    var line := lines[k];
    (IsCategoryLine(line) || IsSubCategoryLine(line) ==> |line| >= 2) &&
    (IsSubCategoryLine(line) ==>
      var r := CategoryLineAbove(lines, k);
      r > 0 && StartsWith(lines[r - 1], "# "))
  }

  predicate WellFormed(lines: seq<string>)
  {
    forall k :: 0 <= k < |lines| ==> ScansCleanly(lines, k)
  }

  /** The index the first `n` lines of a well-formed document describe: one
      category per category line and one subcategory per subcategory line, in
      document order, each subcategory paired with the category named by the
      nearest category line above it. */
  function Expected(lines: seq<string>, n: nat): Index
    requires n <= |lines|
    requires forall k :: 0 <= k < n ==> ScansCleanly(lines, k)
  {
    if n == 0 then EmptyIndex
    else
      assert ScansCleanly(lines, n - 1);
      var e := Expected(lines, n - 1);
      var line := lines[n - 1];
      if IsCategoryLine(line) then
        e.(categories := e.categories + [Category(Name(line))])
      else if IsSubCategoryLine(line) then
        var owner := Category(Name(lines[CategoryLineAbove(lines, n - 1) - 1]));
        var sub := SubCategory(Name(line), Some(owner));
        e.(subCategories := e.subCategories + [sub], pairs := e.pairs + [(sub, owner)])
      else e
  }

  lemma {:induction false} CategoryListed(lines: seq<string>, j: nat, n: nat)
    requires j < n <= |lines|
    requires forall k :: 0 <= k < n ==> ScansCleanly(lines, k)
    requires IsCategoryLine(lines[j])
    ensures |lines[j]| >= 2 && Category(Name(lines[j])) in Expected(lines, n).categories
  {
    assert ScansCleanly(lines, j);
    if j < n - 1 {
      CategoryListed(lines, j, n - 1);
    }
  }

  /** Once the scan has failed, scanning further lines changes nothing. */
  lemma {:induction false} ScanStops(lines: seq<string>, m: nat, n: nat, start: Index)
    requires m <= n <= |lines| && Scan(lines, m, start).failure.Some?
    ensures Scan(lines, n, start) == Scan(lines, m, start)
    decreases n
  {
    if m < n {
      ScanStops(lines, m, n - 1, start);
    }
  }

  /** The lookup by line number finds a category exactly when some known
      category has that line as its marker text, and then it is that category. */
  lemma CategoryFromLineFinds(lines: seq<string>, cats: seq<Category>, n: int)
    requires |cats| > 0 && 1 <= n <= |lines|
    ensures CategoryFromLine(lines, cats, n).Ok?
    ensures CategoryFromLine(lines, cats, n).value.Some? <==>
      exists j :: 0 <= j < |cats| && MarkerText(cats[j]) == lines[n - 1]
    ensures CategoryFromLine(lines, cats, n).value.Some? ==>
      MarkerText(CategoryFromLine(lines, cats, n).value.value) == lines[n - 1]
  {
    var line := lines[n - 1];
    if exists j :: 0 <= j < |cats| && MarkerText(cats[j]) == line {
      var j :| 0 <= j < |cats| && MarkerText(cats[j]) == line;
      MarkerTextNames(cats[j], line);
    }
    if |line| >= 2 {
      MarkerTextOfName(line);
    }
  }

  /** The scan of `n` lines succeeds exactly when each of them scans cleanly,
      and then it adds the expected index to `start`. */
  lemma {:induction false} ScanMeaning(lines: seq<string>, n: nat, start: Index)
    requires n <= |lines|
    ensures Scan(lines, n, start).failure.None? <==> forall k :: 0 <= k < n ==> ScansCleanly(lines, k)
    ensures Scan(lines, n, start).failure.None? ==>
      Scan(lines, n, start).index == Extend(start, Expected(lines, n))
  {
    if n == 0 {
      assert Extend(start, EmptyIndex) == start;
    } else {
      ScanMeaning(lines, n - 1, start);
      var s := Scan(lines, n - 1, start);
      if s.failure.None? {
        var k := n - 1;
        var line := lines[k];
        var e := Expected(lines, k);
        var cats := start.categories + e.categories;
        assert s.index.categories == cats;
        if IsSubCategoryLine(line) && |line| >= 2 {
          var r := CategoryLineAbove(lines, k);
          CategoryLineAboveIsNearest(lines, k);
          if r > 0 && StartsWith(lines[r - 1], "# ") {
            CategoryListed(lines, r - 1, k);
            assert Category(Name(lines[r - 1])) in cats;
            assert CategoryFromLine(lines, cats, r) == Ok(Some(Category(Name(lines[r - 1]))));
            assert ScansCleanly(lines, k);
          } else {
            assert !ScansCleanly(lines, k);
            assert CategoryFromLine(lines, cats, r).Err? || CategoryFromLine(lines, cats, r) == Ok(None);
            assert Scan(lines, n, start).failure.Some?;
          }
        }
        assert Scan(lines, n, start).failure.None? <==> ScansCleanly(lines, k);
      }
    }
  }

  lemma {:induction false} ExpectedPrefix(lines: seq<string>, more: seq<string>, n: nat)
    requires n <= |lines|
    requires forall k :: 0 <= k < n ==> ScansCleanly(lines, k)
    ensures forall k :: 0 <= k < n ==> ScansCleanly(lines + more, k)
    ensures Expected(lines + more, n) == Expected(lines, n)
  {
    if n > 0 {
      ExpectedPrefix(lines, more, n - 1);
      var all := lines + more;
      assert all[n - 1] == lines[n - 1];
      assert ScansCleanly(lines, n - 1);
      CategoryLineAbovePrefix(lines, more, n - 1);
      var r := CategoryLineAbove(lines, n - 1);
      if r > 0 {
        assert all[r - 1] == lines[r - 1];
      }
      assert ScansCleanly(all, n - 1);
    }
  }

  /** Re-reading a well-formed document after `addCategory` wrote "# x" and a
      blank line (what it writes for a name without '\n') finds the same index plus the new category at the end: the
      category list kept in memory stays in step with the file. */
  lemma ReloadAfterAddCategory(lines: seq<string>, x: string)
    requires Scan(lines, |lines|, EmptyIndex).failure.None?
    ensures var added := lines + ["# " + x, ""];
      var before := Scan(lines, |lines|, EmptyIndex).index;
      Scan(added, |added|, EmptyIndex) ==
        ScanState(before.(categories := before.categories + [Category(x)]), None)
  {
    var added := lines + ["# " + x, ""];
    var n := |lines|;
    ScanMeaning(lines, n, EmptyIndex);
    ExpectedPrefix(lines, ["# " + x, ""], n);
    assert added[n] == "# " + x && added[n + 1] == "";
    assert Name(added[n]) == x;
    assert forall k :: 0 <= k < n + 2 ==> ScansCleanly(added, k);
    ScanMeaning(added, n + 2, EmptyIndex);
    var e := Expected(lines, n);
    assert Extend(EmptyIndex, e) == e;
    var ea := Expected(added, n + 2);
    assert Extend(EmptyIndex, ea) == ea;
  }

  /** A line that is a listing adds nothing to the index and never fails. */
  lemma ListingsAreSkipped(lines: seq<string>, k: nat, idx: Index)
    requires k < |lines| && IsListing(lines[k])
    ensures ScanLine(lines, k, idx) == ScanState(idx, None)
  {
  }

  /** A freshly generated document holds no categories and scans without failure. */
  lemma FreshDocumentScan()
    ensures Scan([Header, ""], 2, EmptyIndex) == ScanState(EmptyIndex, None)
  {
    var lines := [Header, ""];
    assert !IsCategoryLine(lines[0]) && !IsSubCategoryLine(lines[0]);
    assert Scan(lines, 1, EmptyIndex) == ScanState(EmptyIndex, None);
  }

  /** A subcategory right under a category is owned by it. */
  lemma ScanExample()
    ensures var lines := [Header, "# Inventory", "- Weapons"];
      var inventory := Category("Inventory");
      var weapons := SubCategory("Weapons", Some(inventory));
      Scan(lines, 3, EmptyIndex) ==
        ScanState(Index([inventory], [weapons], [(weapons, inventory)]), None)
  {
    var lines := [Header, "# Inventory", "- Weapons"];
    assert Header[0] == '@';
    assert Name(lines[1]) == "Inventory";
    assert Name(lines[2]) == "Weapons";
    assert StartsWith(lines[1], "# ");
    assert CategoryLineAbove(lines, 2) == 2;
    var inventory := Category("Inventory");
    var weapons := SubCategory("Weapons", Some(inventory));
    assert !IsCategoryLine(lines[0]) && !IsSubCategoryLine(lines[0]);
    assert Scan(lines, 1, EmptyIndex) == ScanState(EmptyIndex, None);
    assert Scan(lines, 2, EmptyIndex) == ScanState(Index([inventory], [], []), None);
    assert CategoryFromLine(lines, [inventory], 2) == Ok(Some(inventory));
  }

  /** A subcategory whose only category line is the first line has no owner
      line in reach: the lookup reads line 0 and fails out of range. */
  lemma OrphanUnderFirstLine()
    ensures var lines := ["# A", "- S"];
      Scan(lines, 2, EmptyIndex) ==
        ScanState(Index([Category("A")], [SubCategory("S", None)], []), Some(OutOfRange))
  {
    var lines := ["# A", "- S"];
    assert Name(lines[0]) == "A" && Name(lines[1]) == "S";
    assert CategoryLineAbove(lines, 1) == 0;
    assert Scan(lines, 1, EmptyIndex) == ScanState(Index([Category("A")], [], []), None);
  }
}
