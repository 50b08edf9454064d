/** The records a document is organised into, and the grammar of its lines.

    A line starting with '#' marks a category and one starting with '-' a
    subcategory; in both cases the name is everything after the first two
    characters.  The first line of a generated file is the header. */
module Formatting {
  import opened Outcomes
  import opened Lines

  datatype Category = Category(name: string)

  /** A subcategory and the category it was assigned to (`null` in Java is `None`). */
  datatype SubCategory = SubCategory(name: string, owner: Option<Category>)

  const Header: string := "@th-data file"

  /** The header followed by "\n" reads back as the header and a blank line. */
  lemma HeaderWrite()
    ensures NewlineFree(Header)
    ensures Split(Header + "\n") == [Header, ""]
  {
    assert forall i :: 0 <= i < |Header| ==> Header[i] != '\n';
    SplitAround(Header, "");
    assert Header + "\n" == Header + "\n" + "";
  }

  predicate IsCategoryLine(line: string)
  {
    |line| > 0 && line[0] == '#'
  }

  predicate IsSubCategoryLine(line: string)
  {
    |line| > 0 && line[0] == '-'
  }

  /** `line.substring(2)`, on lines where Java does not throw. */
  function Name(line: string): string
    requires |line| >= 2
  {
    line[2..]
  }

  /** The line a category is written as, and looked up by. */
  function MarkerText(c: Category): string
  {
    "# " + c.name
  }

  /** The line a subcategory is looked up by. */
  function SubMarkerText(s: SubCategory): string
  {
    "- " + s.name
  }

  /** A marker line is the marker text of the category it names exactly when
      its second character is a space. */
  lemma MarkerTextOfName(line: string)
    requires |line| >= 2
    ensures MarkerText(Category(Name(line))) == line <==> StartsWith(line, "# ")
  {
    if StartsWith(line, "# ") {
      assert line == line[..2] + line[2..];
    }
  }

  /** Only the text after "# " identifies a category by its marker. */
  lemma MarkerTextNames(c: Category, line: string)
    requires MarkerText(c) == line
    ensures |line| >= 2 && StartsWith(line, "# ") && c == Category(Name(line))
  {
    assert line[2..] == c.name;
  }

  /** The lines `isLineListing` accepts: everything but markers, blanks and the header. */
  predicate IsListing(line: string)
  {
    !(IsCategoryLine(line) || IsSubCategoryLine(line) || line == "" || line == Header)
  }
}
