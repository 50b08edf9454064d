/** The duplicate-name check and the choice of the line a new entry is written at. */
module Planner {
  import opened Outcomes
  import opened Lines
  import opened Formatting

  /** `line` is a marker line (first character `marker`) naming `name`, ignoring case. */
  predicate Declares(line: string, marker: char, name: string)
  {
    |line| >= 2 && line[0] == marker && EqualsIgnoreCase(line[2..], name)
  }

  /** The duplicate check: the lines are read in order; a marker line naming
      `name` (ignoring case) answers true, a bare one-character marker line
      fails, and running out of lines answers false. */
  function NameCheck(lines: seq<string>, marker: char, name: string): Result<bool>
  {
    if |lines| == 0 then Ok(false)
    else if |lines[0]| > 0 && lines[0][0] == marker then
      if |lines[0]| < 2 then Err(MalformedMarker)
      else if EqualsIgnoreCase(lines[0][2..], name) then Ok(true)
      else NameCheck(lines[1..], marker, name)
    else NameCheck(lines[1..], marker, name)
  }

  /** NameCheck answers false exactly when no line declares the name and no
      line is a bare marker; true only if some line declares it; and it fails
      only on a bare marker. */
  lemma {:induction false} NameCheckMeaning(lines: seq<string>, marker: char, name: string)
    ensures NameCheck(lines, marker, name) == Ok(false) <==>
      forall k :: 0 <= k < |lines| ==> !Declares(lines[k], marker, name) && lines[k] != [marker]
    ensures NameCheck(lines, marker, name) == Ok(true) ==>
      exists k :: 0 <= k < |lines| && Declares(lines[k], marker, name)
    ensures NameCheck(lines, marker, name).Err? ==>
      NameCheck(lines, marker, name).failure == MalformedMarker && [marker] in lines
  {
    if |lines| > 0 {
      NameCheckMeaning(lines[1..], marker, name);
      var line := lines[0];
      if |line| > 0 && line[0] == marker && |line| < 2 {
        assert line == [marker];
      }
      if !(|line| > 0 && line[0] == marker) {
        assert !Declares(line, marker, name) && line != [marker];
      }
      assert forall k :: 1 <= k < |lines| ==> lines[k] == lines[1..][k - 1];
      if NameCheck(lines[1..], marker, name) == Ok(true) && NameCheck(lines, marker, name) == Ok(true) {
        var k :| 0 <= k < |lines[1..]| && Declares(lines[1..][k], marker, name);
        assert Declares(lines[k + 1], marker, name);
      }
      if NameCheck(lines[1..], marker, name).Err? && NameCheck(lines, marker, name).Err? {
        assert [marker] in lines[1..];
      }
    }
  }

  /** The category names, in order. */
  function Names(cats: seq<Category>): seq<string>
  {
    seq(|cats|, i requires 0 <= i < |cats| => cats[i].name)
  }

  /** The 0-based index of the first line that is the marker text of `c`, or 0 if none is. */
  function CategoryLine(lines: seq<string>, c: Category): nat
  {
    match FirstIndex(lines, MarkerText(c))
    case Some(i) => i
    case None => 0
  }

  /** The line a new entry is placed at, given its category, subcategory and
      whether it goes into a table listing:
      - no category: the line count;
      - a table listing, or a subcategory the call cannot use: 0;
      - a subcategory named like a known one but with no owner: a null dereference;
      - a category only: where the marker of the next known category is, or
        the line count after the last one; 0 for an unknown category. */
  function NewObjectLine(lines: seq<string>, cats: seq<Category>, subs: seq<SubCategory>,
                         category: Option<Category>, sub: Option<SubCategory>, table: bool): Result<int>
  {
    match category
    case None => Ok(|lines|)
    case Some(c) =>
      if table then Ok(0)
      else match sub
        case None =>
          (match FirstIndex(Names(cats), c.name)
           case None => Ok(0)
           case Some(i) => if i + 1 < |cats| then Ok(CategoryLine(lines, cats[i + 1])) else Ok(|lines|))
        case Some(s) =>
          if s.owner.None? && exists j :: 0 <= j < |subs| && subs[j].name == s.name
          then Err(NullReference) else Ok(0)
  }

  /** Where a subcategory or listing is placed under a known category `c`:
      right at the first marker line of the category after it, or at the line
      count if `c` comes last. */
  lemma PlacementUnderCategory(lines: seq<string>, cats: seq<Category>, subs: seq<SubCategory>, i: nat)
    requires i < |cats| && forall j :: 0 <= j < i ==> cats[j].name != cats[i].name
    ensures var r := NewObjectLine(lines, cats, subs, Some(cats[i]), None, false);
      r.Ok? &&
      (i + 1 == |cats| ==> r.value == |lines|) &&
      (i + 1 < |cats| && MarkerText(cats[i + 1]) in lines ==>
        0 <= r.value < |lines| && lines[r.value] == MarkerText(cats[i + 1]) &&
        forall j :: 0 <= j < r.value ==> lines[j] != MarkerText(cats[i + 1])) &&
      (i + 1 < |cats| && MarkerText(cats[i + 1]) !in lines ==> r.value == 0)
  {
    var names := Names(cats);
    assert names[i] == cats[i].name;
    assert FirstIndex(names, cats[i].name) == Some(i);
  }

  /** Replacing the 1-based line `p` by "\n- name\n" puts a blank line, the
      subcategory marker and a blank line where line `p` was; the lines before
      and after it are kept, shifted by two. */
  lemma SubCategoryWrite(lines: seq<string>, p: nat, name: string)
    requires 1 <= p <= |lines| && NewlineFree(name)
    ensures var written := lines[..p - 1] + Split("\n- " + name + "\n") + lines[p..];
      |written| == |lines| + 2 &&
      written[..p - 1] == lines[..p - 1] &&
      written[p - 1..p + 2] == ["", "- " + name, ""] &&
      written[p + 2..] == lines[p..]
  {
    var marker := "- " + name;
    assert NewlineFree(marker);
    assert "\n- " + name + "\n" == "" + "\n" + (marker + "\n" + "");
    SplitAround("", marker + "\n" + "");
    SplitAround(marker, "");
    assert Split("\n- " + name + "\n") == ["", marker, ""];
    var written := lines[..p - 1] + ["", marker, ""] + lines[p..];
    assert written[p - 1..p + 2] == ["", marker, ""];
    assert written[p + 2..] == lines[p..];
  }
}
