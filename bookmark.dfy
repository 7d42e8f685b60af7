/** The two record types that flow through the pipeline. */
module Models {
  import opened Wrappers

  /** A bookmark read from the input file; only its title is ever changed. */
  class Bookmark {
    var title: string
    var url: string
    var description: string
    var folder: string
    var addDate: Option<string>

    constructor (title: string, url: string, description: string := "", folder: string := "", addDate: Option<string> := None)
      ensures this.title == title && this.url == url && this.description == description
      ensures this.folder == folder && this.addDate == addDate
    {
      this.title := title;
      this.url := url;
      this.description := description;
      this.folder := folder;
      this.addDate := addDate;
    }

    /** Renaming replaces the title and nothing else. */
    method Rename(newTitle: string)
      modifies this`title
      ensures title == newTitle
    {
      title := newTitle;
    }

    /** `repr(b)`: `<Bookmark: TITLE (URL) in 'FOLDER'>`. */
    function ReprString(): (r: string)
      reads this
      ensures |r| == 21 + |title| + |url| + |folder|
      ensures r[..11] == "<Bookmark: " && r[11..11 + |title|] == title
      ensures r[11 + |title|..13 + |title|] == " (" && r[13 + |title|..13 + |title| + |url|] == url
      ensures r[13 + |title| + |url|..19 + |title| + |url|] == ") in '"
      ensures r[19 + |title| + |url|..|r| - 2] == folder && r[|r| - 2..] == "'>"
    {
      "<Bookmark: " + title + " (" + url + ") in '" + folder + "'>"
    }

    /** `str(b)`: `TITLE (URL) - DESCRIPTION`. */
    function DisplayString(): (r: string)
      reads this
      ensures |r| == 6 + |title| + |url| + |description|
      ensures r[..|title|] == title && r[|title|..|title| + 2] == " ("
      ensures r[|title| + 2..|title| + 2 + |url|] == url
      ensures r[|title| + 2 + |url|..|title| + 6 + |url|] == ") - "
      ensures r[|title| + 6 + |url|..] == description
    {
      title + " (" + url + ") - " + description
    }
  }

  /**
   * The result of classifying one bookmark. Its fields are exactly the four
   * values parsed from a classifier's answer; it is never changed afterwards.
   */
  datatype ClassifiedBookmark = ClassifiedBookmark(name: string, description: string, category: string, url: string)

  /** A bookmark built with only a title and a URL has empty description and folder and no date. */
  method NewBookmarkDefaults(title: string, url: string) returns (b: Bookmark)
    ensures fresh(b)
    ensures b.title == title && b.url == url
    ensures b.description == "" && b.folder == "" && b.addDate == None
  {
    b := new Bookmark(title, url);
  }
}
