/** A data file: the lines stored on disk and the structure lists kept beside them. */
module DataFiles {
  import opened Outcomes
  import opened Lines
  import opened Formatting

  class DataFile {
    /** The lines of the file as `Files.readAllLines` returns them. */
    var disk: seq<string>
    /** Whether the file exists (`File.exists()` and not a directory). */
    var present: bool
    var categories: seq<Category>
    var subCategories: seq<SubCategory>
    /** The `map` list: one (subcategory, category) pair per one-entry map. */
    var pairs: seq<(SubCategory, Category)>

    /** Lines read back from a file never hold a line terminator. */
    ghost predicate Valid()
      reads this
    {
      AllNewlineFree(disk) && (!present ==> disk == [])
    }

    /** A handle on a file that holds `onDisk`, or on a missing file; all three
        lists start empty.  Creating a missing file and scanning it are done by
        `DataWriter.Open`, which the Java constructor calls into. */
    constructor (onDisk: Option<seq<string>>)
      requires onDisk.Some? ==> AllNewlineFree(onDisk.value)
      ensures Valid()
      ensures present == onDisk.Some?
      ensures disk == (if onDisk.Some? then onDisk.value else [])
      ensures categories == [] && subCategories == [] && pairs == []
    {
      present := onDisk.Some?;
      disk := if onDisk.Some? then onDisk.value else [];
      categories := [];
      subCategories := [];
      pairs := [];
    }

    /** Appends `category`; nothing else changes. */
    method AddCategory(category: Category)
      modifies this`categories
      ensures categories == old(categories) + [category]
      ensures GetCategory(|categories| - 1) == Ok(category)
    {
      categories := categories + [category];
    }

    /** The category at 0-based `index`, failing outside 0..size-1. */
    function GetCategory(index: int): (r: Result<Category>)
      reads this
      ensures r.Ok? <==> 0 <= index < |categories|
      ensures r.Ok? ==> r.value == categories[index]
      ensures r.Err? ==> r.failure == OutOfRange
    {
      if 0 <= index < |categories| then Ok(categories[index]) else Err(OutOfRange)
    }

    /** Appends `subCategory`; nothing else changes. */
    method AddSubCategory(subCategory: SubCategory)
      modifies this`subCategories
      ensures subCategories == old(subCategories) + [subCategory]
      ensures GetSubCategory(|subCategories| - 1) == Ok(subCategory)
    {
      subCategories := subCategories + [subCategory];
    }

    /** The subcategory at 0-based `index`, failing outside 0..size-1. */
    function GetSubCategory(index: int): (r: Result<SubCategory>)
      reads this
      ensures r.Ok? <==> 0 <= index < |subCategories|
      ensures r.Ok? ==> r.value == subCategories[index]
      ensures r.Err? ==> r.failure == OutOfRange
    {
      if 0 <= index < |subCategories| then Ok(subCategories[index]) else Err(OutOfRange)
    }
  }
}
