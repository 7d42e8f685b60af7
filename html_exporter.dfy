/**
 * The exporter: the classification result written out as a Netscape
 * bookmark file, its per-category statistics, and the check run on the
 * data before export.
 *
 * The data is the classifier's grouped result, category -> (site name -> URL),
 * as an insertion-ordered dict of dicts. The timestamp `str(int(time.time()))`
 * is a parameter.
 */
module Exporters {
  import opened Wrappers
  import opened Text
  import opened OrderedDict
  import opened Seqs
  import Config

  type Data = Dict<string, Dict<string, string>>

  // ---------------------------------------------------------------------------
  // The lines of the bookmark file
  // ---------------------------------------------------------------------------

  /** The seven fixed lines every file starts with; only the toolbar folder's date varies. */
  function Header(ts: string): seq<string> {
    [DocType, MetaLine, TitleLine, H1Line, OpenTop, ToolbarLine(ts), OpenToolbar]
  }

  const DocType: string := "<!DOCTYPE NETSCAPE-Bookmark-file-1>"
  const MetaLine: string := "<META HTTP-EQUIV=\"Content-Type\" CONTENT=\"text/html; charset=UTF-8\">"
  const TitleLine: string := "<TITLE>Bookmarks</TITLE>"
  const H1Line: string := "<H1>Bookmarks</H1>"
  const OpenTop: string := "<DL><p>"
  const OpenToolbar: string := "    <DL><p>"

  /** The bookmark-bar folder line, dated `ts`. */
  function ToolbarLine(ts: string): string {
    "    <DT><H3 ADD_DATE=\"" + ts + "\" PERSONAL_TOOLBAR_FOLDER=\"true\">书签栏</H3>"
  }

  /** The two lines every file ends with. */
  const Footer: seq<string> := ["    </DL><p>", "</DL><p>"]

  const OpenList: string := "        <DL><p>"
  const CloseList: string := "        </DL><p>"

  /** The folder line of one category. */
  function FolderLine(category: string, ts: string): string {
    "        <DT><H3 ADD_DATE=\"" + ts + "\">" + category + "</H3>"
  }

  /** The link line of one site: its URL as `HREF`, its name as the text. */
  function SiteLine(name: string, url: string, ts: string): string {
    "            <DT><A HREF=\"" + url + "\" ADD_DATE=\"" + ts + "\">" + name + "</A>"
  }

  /** One link line per site, in the inner dict's order. */
  function SiteLines(sites: Dict<string, string>, ts: string): (r: seq<string>)
    ensures |r| == |sites| && forall j :: 0 <= j < |sites| ==> r[j] == SiteLine(sites[j].0, sites[j].1, ts)
  {
    seq(|sites|, j requires 0 <= j < |sites| => SiteLine(sites[j].0, sites[j].1, ts))
  }

  /** The lines of one category: nothing for an empty one, else its folder line and its list of links. */
  function CategoryBlock(category: string, sites: Dict<string, string>, ts: string): seq<string> {
    if sites == [] then [] else [FolderLine(category, ts), OpenList] + SiteLines(sites, ts) + [CloseList]
  }

  /** The lines of all categories, in the outer dict's order. */
  function CategoryLines(data: Data, ts: string): seq<string> {
    if data == [] then []
    else CategoryLines(data[..|data| - 1], ts) + CategoryBlock(data[|data| - 1].0, data[|data| - 1].1, ts)
  }

  /** The whole file, line by line. */
  function HtmlLines(data: Data, ts: string): seq<string> {
    Header(ts) + CategoryLines(data, ts) + Footer
  }

  /** The number of lines the categories take: three around each non-empty category plus one per site. */
  function BodyLineCount(data: Data): nat {
    if data == [] then 0
    else
      var n := |data[|data| - 1].1|;
      BodyLineCount(data[..|data| - 1]) + (if n == 0 then 0 else 3 + n)
  }

  function NonEmptyCount(data: Data): nat {
    if data == [] then 0
    else NonEmptyCount(data[..|data| - 1]) + (if data[|data| - 1].1 == [] then 0 else 1)
  }

  /** The file has 9 fixed lines, 3 per non-empty category and one per site. */
  lemma {:induction false} HtmlLinesCount(data: Data, ts: string)
    ensures |CategoryLines(data, ts)| == BodyLineCount(data)
    ensures |HtmlLines(data, ts)| == 9 + BodyLineCount(data)
    ensures BodyLineCount(data) == 3 * NonEmptyCount(data) + TotalEntries(data)
  {
    if data != [] {
      HtmlLinesCount(data[..|data| - 1], ts);
    }
  }

  /** The file starts with the seven header lines and ends with the two footer lines. */
  lemma HtmlFrame(data: Data, ts: string)
    ensures |HtmlLines(data, ts)| >= 9
    ensures HtmlLines(data, ts)[..7] == Header(ts)
    ensures HtmlLines(data, ts)[|HtmlLines(data, ts)| - 2..] == Footer
  {
    var body := CategoryLines(data, ts);
    assert (Header(ts) + body + Footer)[..7] == Header(ts);
  }

  /** The categories of two parts of the data are written one after the other. */
  lemma {:induction false} CategoryLinesAppend(a: Data, b: Data, ts: string)
    ensures CategoryLines(a + b, ts) == CategoryLines(a, ts) + CategoryLines(b, ts)
    decreases |b|
  {
    if b == [] {
      assert a + b == a;
    } else {
      var n := |b| - 1;
      var block := CategoryBlock(b[n].0, b[n].1, ts);
      assert (a + b)[..|a + b| - 1] == a + b[..n];
      assert CategoryLines(a + b, ts) == CategoryLines(a + b[..n], ts) + block;
      CategoryLinesAppend(a, b[..n], ts);
      ConcatAssoc(CategoryLines(a, ts), CategoryLines(b[..n], ts), block);
    }
  }

  /** An empty category adds no line. */
  lemma EmptyCategorySkipped(data: Data, category: string, ts: string)
    ensures CategoryLines(data + [(category, [])], ts) == CategoryLines(data, ts)
  {
    assert (data + [(category, [])])[..|data|] == data;
  }

  /** Every site of every category has its link line, with that URL, name and the one timestamp, in the file. */
  lemma {:induction false} SiteLineWritten(data: Data, ts: string, i: nat, j: nat)
    requires i < |data| && j < |data[i].1|
    ensures SiteLine(data[i].1[j].0, data[i].1[j].1, ts) in HtmlLines(data, ts)
  {
    var line := SiteLine(data[i].1[j].0, data[i].1[j].1, ts);
    SiteLineInBody(data, ts, i, j);
    assert HtmlLines(data, ts) == Header(ts) + (CategoryLines(data, ts) + Footer);
  }

  lemma {:induction false} SiteLineInBody(data: Data, ts: string, i: nat, j: nat)
    requires i < |data| && j < |data[i].1|
    ensures SiteLine(data[i].1[j].0, data[i].1[j].1, ts) in CategoryLines(data, ts)
    decreases |data|
  {
    var n := |data| - 1;
    var (c, sites) := data[n];
    if i < n {
      SiteLineInBody(data[..n], ts, i, j);
    } else {
      var block := CategoryBlock(c, sites, ts);
      assert block[2 + j] == SiteLines(sites, ts)[j];
    }
  }

  /** A line of the categories' part: a list bracket, a category's folder line or a site's link line, all dated `ts`. */
  predicate BodyLine(data: Data, ts: string, line: string) {
    line == OpenList || line == CloseList ||
    (exists i :: 0 <= i < |data| && line == FolderLine(data[i].0, ts)) ||
    (exists i, j :: 0 <= i < |data| && 0 <= j < |data[i].1| && line == SiteLine(data[i].1[j].0, data[i].1[j].1, ts))
  }

  /** Nothing but those lines is written between header and footer. */
  lemma {:induction false} OnlyBodyLines(data: Data, ts: string, k: nat)
    requires k < |CategoryLines(data, ts)|
    ensures BodyLine(data, ts, CategoryLines(data, ts)[k])
    decreases |data|
  {
    var n := |data| - 1;
    var init := data[..n];
    var block := CategoryBlock(data[n].0, data[n].1, ts);
    var m := |CategoryLines(init, ts)|;
    assert data == init + [data[n]];
    assert CategoryLines(data, ts) == CategoryLines(init, ts) + block;
    if k < m {
      OnlyBodyLines(init, ts, k);
      BodyLineExtend(init, data[n], ts, CategoryLines(init, ts)[k]);
    } else {
      BlockLine(data, ts, n, k - m);
    }
  }

  /** A line of the last category's block is a line of the data. */
  lemma BlockLine(data: Data, ts: string, n: nat, k: nat)
    requires n < |data| && k < |CategoryBlock(data[n].0, data[n].1, ts)|
    ensures BodyLine(data, ts, CategoryBlock(data[n].0, data[n].1, ts)[k])
  {
    var sites := data[n].1;
    var line := CategoryBlock(data[n].0, sites, ts)[k];
    if k == 0 {
      assert line == FolderLine(data[n].0, ts);
    } else if 2 <= k < 2 + |sites| {
      assert line == SiteLines(sites, ts)[k - 2];
      assert line == SiteLine(data[n].1[k - 2].0, data[n].1[k - 2].1, ts);
    }
  }

  /** A line of some categories stays a line of them when another category follows. */
  lemma BodyLineExtend(init: Data, x: (string, Dict<string, string>), ts: string, line: string)
    requires BodyLine(init, ts, line)
    ensures BodyLine(init + [x], ts, line)
  {
    var data := init + [x];
    if line != OpenList && line != CloseList {
      if exists i :: 0 <= i < |init| && line == FolderLine(init[i].0, ts) {
        var i :| 0 <= i < |init| && line == FolderLine(init[i].0, ts);
        assert data[i] == init[i];
      } else {
        var i, j :| 0 <= i < |init| && 0 <= j < |init[i].1| && line == SiteLine(init[i].1[j].0, init[i].1[j].1, ts);
        assert data[i] == init[i];
      }
    }
  }

  /** The sites of one category appended to a line list. */
  method AppendSites(lines: seq<string>, sites: Dict<string, string>, ts: string) returns (r: seq<string>)
    ensures r == lines + SiteLines(sites, ts)
  {
    r := lines;
    var j := 0;
    while j < |sites|
      invariant j <= |sites|
      invariant r == lines + SiteLines(sites[..j], ts)
    {
      var (name, url) := sites[j];
      SiteLinesStep(sites, j, ts);
      ConcatAssoc(lines, SiteLines(sites[..j], ts), [SiteLine(name, url, ts)]);
      r := r + [SiteLine(name, url, ts)];
      j := j + 1;
    }
    TakeFull(sites);
  }

  lemma SiteLinesStep(sites: Dict<string, string>, j: nat, ts: string)
    requires j < |sites|
    ensures SiteLines(sites[..j + 1], ts) == SiteLines(sites[..j], ts) + [SiteLine(sites[j].0, sites[j].1, ts)]
  {
    var l, r := SiteLines(sites[..j + 1], ts), SiteLines(sites[..j], ts) + [SiteLine(sites[j].0, sites[j].1, ts)];
    assert forall k :: 0 <= k < |l| ==> l[k] == r[k];
  }

  lemma CategoryLinesStep(data: Data, i: nat, ts: string)
    requires i < |data|
    ensures CategoryLines(data[..i + 1], ts) == CategoryLines(data[..i], ts) + CategoryBlock(data[i].0, data[i].1, ts)
  {
    assert data[..i + 1][..i] == data[..i];
  }

  // ---------------------------------------------------------------------------
  // `validate_data` over loosely typed data
  // ---------------------------------------------------------------------------

  /** A key or value of an inner dict: a string, or anything else. */
  datatype Value = Str(s: string) | NotStr

  /** A category's value: a dict of values, or anything else. */
  datatype Sites = SiteDict(entries: seq<(Value, Value)>) | NotDict

  type LooseData = seq<(string, Sites)>

  predicate SitesWellTyped(sites: Sites) {
    sites.SiteDict? && forall j :: 0 <= j < |sites.entries| ==> sites.entries[j].0.Str? && sites.entries[j].1.Str?
  }

  /** What `validate_data` accepts: non-empty data whose every value is a dict from strings to strings. */
  predicate LooseValid(data: LooseData) {
    data != [] && forall i :: 0 <= i < |data| ==> SitesWellTyped(data[i].1)
  }

  /** Typed data seen as loose data. */
  function Loosen(data: Data): (r: LooseData)
    ensures |r| == |data|
    ensures forall i :: 0 <= i < |data| ==> r[i].0 == data[i].0 && r[i].1.SiteDict? && |r[i].1.entries| == |data[i].1|
    ensures forall i, j :: 0 <= i < |data| && 0 <= j < |data[i].1| ==>
      r[i].1.entries[j] == (Str(data[i].1[j].0), Str(data[i].1[j].1))
  {
    seq(|data|, i requires 0 <= i < |data| =>
      (data[i].0, SiteDict(seq(|data[i].1|, j requires 0 <= j < |data[i].1| => (Str(data[i].1[j].0), Str(data[i].1[j].1))))))
  }

  /** Typed data is rejected exactly when it is empty. */
  lemma TypedDataValid(data: Data)
    ensures LooseValid(Loosen(data)) <==> data != []
  {
  }

  /** `url.startswith(('http://', 'https://'))`: failing it is only logged. */
  predicate HasWebPrefix(url: string) {
    StartsWith(url, "http://") || StartsWith(url, "https://")
  }

  /**
   * The check of `validate_data` on loose data: empty data, a category whose
   * value is not a dict, or a name or URL that is not a string makes it fail.
   * A URL without a web prefix is only logged and does not.
   */
  method ValidateLoose(data: LooseData) returns (valid: bool)
    ensures valid <==> LooseValid(data)
  {
    if data == [] {
      return false;
    }
    var i := 0;
    while i < |data|
      invariant i <= |data|
      invariant forall k :: 0 <= k < i ==> SitesWellTyped(data[k].1)
    {
      var (_, sites) := data[i];
      if !sites.SiteDict? {
        return false;
      }
      var j := 0;
      while j < |sites.entries|
        invariant j <= |sites.entries|
        invariant forall k :: 0 <= k < j ==> sites.entries[k].0.Str? && sites.entries[k].1.Str?
      {
        var (name, url) := sites.entries[j];
        if !name.Str? || !url.Str? {
          return false;
        }
        j := j + 1;
      }
      i := i + 1;
    }
    return true;
  }

  // ---------------------------------------------------------------------------
  // The exporter
  // ---------------------------------------------------------------------------

  /** The key `get_statistics` adds for the total; a category of that name has its count replaced. */
  const TotalKey: string := "总计"

  /** `filename or config.output.output_filename`. */
  function ResolveFilename(filename: Option<string>): (f: string)
    ensures filename.None? || filename == Some("") ==> f == Config.DefaultOutputFilename
    ensures filename.Some? && filename.value != "" ==> f == filename.value
  {
    if filename.None? || filename.value == "" then Config.DefaultOutputFilename else filename.value
  }

  /** The per-category counts, in category order. */
  function SiteCounts(data: Data): (r: Dict<string, int>)
    ensures |r| == |data| && forall i :: 0 <= i < |data| ==> r[i] == (data[i].0, |data[i].1|)
  {
    seq(|data|, i requires 0 <= i < |data| => (data[i].0, |data[i].1|))
  }

  class HtmlExporter {
    /** Category -> (name -> URL); as a Python dict it never repeats a category. */
    const data: Data
    const filename: string

    constructor (data: Data, filename: Option<string> := None)
      requires UniqueKeys(data)
      ensures this.data == data && this.filename == ResolveFilename(filename)
    {
      this.data := data;
      this.filename := ResolveFilename(filename);
    }

    /** `_generate_html` at time `timestamp`: the file's lines joined by newlines. */
    method GenerateHtml(timestamp: nat) returns (html: string)
      ensures html == Join(HtmlLines(data, NatToDecimal(timestamp)), "\n")
    {
      var ts := NatToDecimal(timestamp);
      var lines := Header(ts);
      var i := 0;
      while i < |data|
        invariant i <= |data|
        invariant lines == Header(ts) + CategoryLines(data[..i], ts)
      {
        var (category, sites) := data[i];
        CategoryLinesStep(data, i, ts);
        if sites != [] {
          var before := lines;
          lines := lines + [FolderLine(category, ts), OpenList];
          lines := AppendSites(lines, sites, ts);
          lines := lines + [CloseList];
          BlockAppended(before, category, sites, ts);
          ConcatAssoc(Header(ts), CategoryLines(data[..i], ts), CategoryBlock(category, sites, ts));
        }
        i := i + 1;
      }
      TakeFull(data);
      lines := lines + Footer;
      html := Join(lines, "\n");
    }

    /**
     * `get_statistics`: each category with the size of its dict, in order,
     * then the total under `TotalKey` (which replaces a category of that name).
     */
    method GetStatistics() returns (stats: Dict<string, int>)
      requires UniqueKeys(data)
      ensures stats == Put(SiteCounts(data), TotalKey, TotalEntries(data))
    {
      stats := [];
      var total := 0;
      var i := 0;
      while i < |data|
        invariant i <= |data|
        invariant stats == SiteCounts(data[..i]) && total == TotalEntries(data[..i])
      {
        var (category, sites) := data[i];
        var count := |sites|;
        forall j | 0 <= j < i ensures stats[j].0 != category {
          assert data[j].0 != data[i].0;
        }
        LookupAbsent(stats, category);
        PutShape(stats, category, count);
        stats := Put(stats, category, count);
        total := total + count;
        assert data[..i + 1][..i] == data[..i];
        assert stats == SiteCounts(data[..i + 1]);
        i := i + 1;
      }
      TakeFull(data);
      stats := Put(stats, TotalKey, total);
    }

    /** `validate_data`: typed data is rejected exactly when it is empty. */
    method ValidateData() returns (valid: bool)
      ensures valid <==> data != []
    {
      valid := ValidateLoose(Loosen(data));
      TypedDataValid(data);
    }
  }

  /** Adding one non-empty category block. */
  lemma BlockAppended(before: seq<string>, category: string, sites: Dict<string, string>, ts: string)
    requires sites != []
    ensures before + [FolderLine(category, ts), OpenList] + SiteLines(sites, ts) + [CloseList] ==
      before + CategoryBlock(category, sites, ts)
  {
  }

  /** A key no entry has is absent. */
  lemma LookupAbsent<K, V>(d: Dict<K, V>, k: K)
    requires forall j :: 0 <= j < |d| ==> d[j].0 != k
    ensures Lookup(d, k).None?
  {
    LookupPresent(d, k);
  }

  /**
   * What the statistics say: every category not named like the total maps to
   * the number of its sites, and the total is the number of sites in all.
   */
  lemma StatisticsMeaning(data: Data, i: nat)
    requires UniqueKeys(data) && i < |data| && data[i].0 != TotalKey
    ensures Lookup(Put(SiteCounts(data), TotalKey, TotalEntries(data)), data[i].0) == Some(|data[i].1|)
    ensures Lookup(Put(SiteCounts(data), TotalKey, TotalEntries(data)), TotalKey) == Some(TotalEntries(data))
  {
    LookupEntry(SiteCounts(data), i);
  }

  /**
   * For a classifier's result, whose categories all come from the category
   * list, no category is named like the total: the total is appended after
   * the per-category counts.
   */
  lemma StatisticsOfClassifiedData(data: Data)
    requires forall i :: 0 <= i < |data| ==> data[i].0 in Config.Categories
    ensures Put(SiteCounts(data), TotalKey, TotalEntries(data)) == SiteCounts(data) + [(TotalKey, TotalEntries(data))]
  {
    var counts := SiteCounts(data);
    forall j | 0 <= j < |counts| ensures counts[j].0 != TotalKey {
      NotACategory(data[j].0);
    }
    LookupAbsent(counts, TotalKey);
    PutShape(SiteCounts(data), TotalKey, TotalEntries(data));
  }

  lemma NotACategory(c: string)
    requires c in Config.Categories
    ensures c != TotalKey
  {
  }
}
