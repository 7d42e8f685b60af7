/**
 * The metadata fetcher: a per-instance cache from URL to (title, description),
 * a chain of four retrieval strategies tried in a fixed order, the
 * title/description extraction from a fetched page, and the batch `get_all`.
 *
 * What a strategy's HTTP request yields is an oracle: `Some(pair)` is the
 * pair its page produced, `None` means the strategy raised. What the HTML
 * parser finds in a page is an oracle too (`PageFindings`).
 */
module Fetchers {
  import opened Wrappers
  import opened Text
  import opened Config
  import opened Seqs

  const NoTitle: string := "无标题"
  const NoDescription: string := "无描述"
  const Sentinel: (string, string) := (NoTitle, NoDescription)

  /** The strategies, in the order they are tried. */
  const Strategies: seq<string> := ["normal request", "rotating headers", "delayed request", "alternative headers"]

  /** Title suffixes removed by the cleanup, each tried once, in this order. */
  const TitleSuffixes: seq<string> := [" - 首页", " - Home", " | 首页", " | Home", " - 官网", " | 官网"]

  /** The selectors of the last title method and of the last description method. */
  const TitleSelectors: seq<string> := ["h1", "h2", "h3", ".site-title", ".brand", ".logo"]
  const DescriptionSelectors: seq<string> := [".description", ".summary", ".intro", ".content"]

  const MaxTextLength: nat := 100
  const Ellipsis: string := "..."

  // ---------------------------------------------------------------------------
  // Extraction of title and description from a page
  // ---------------------------------------------------------------------------

  /**
   * What the HTML parser finds in one page. `titleString` is the single string
   * of `<title>` (absent when there is no title tag or it has no single
   * string); the `...Text` fields are element texts, the `...Content` fields
   * `content` attributes; `titleSelectorTexts[k]` is the text of the first
   * element matching `TitleSelectors[k]`, likewise for descriptions.
   */
  datatype PageFindings = PageFindings(
    titleString: Option<string>,
    firstH1Text: Option<string>,
    ogTitleContent: Option<string>,
    titleSelectorTexts: seq<Option<string>>,
    metaDescriptionContent: Option<string>,
    ogDescriptionContent: Option<string>,
    firstParagraphText: Option<string>,
    descriptionSelectorTexts: seq<Option<string>>)

  /** A found element whose text is not blank (`el and el.get_text().strip()`). */
  predicate NonBlank(o: Option<string>) {
    o.Some? && Strip(o.value) != ""
  }

  /** A found attribute whose value is not empty (`tag and tag.get("content")`). */
  predicate NonEmpty(o: Option<string>) {
    o.Some? && o.value != ""
  }

  /** Index of the first non-blank text, or `|texts|` when there is none. */
  function FirstNonBlankIndex(texts: seq<Option<string>>): (i: nat)
    ensures i <= |texts|
    ensures i < |texts| ==> NonBlank(texts[i])
    ensures forall j :: 0 <= j < i ==> !NonBlank(texts[j])
  {
    if texts == [] then 0 else if NonBlank(texts[0]) then 0 else 1 + FirstNonBlankIndex(texts[1..])
  }

  /** The stripped first non-blank text (the selector loops that `break` on the first hit). */
  function FirstNonBlank(texts: seq<Option<string>>): Option<string> {
    var i := FirstNonBlankIndex(texts);
    if i < |texts| then Some(Strip(texts[i].value)) else None
  }

  /** `text[:100] + "..."` when longer than 100 characters, else `text`. */
  function Truncate(t: string): (r: string)
    ensures |r| <= MaxTextLength + |Ellipsis|
    ensures |t| <= MaxTextLength ==> r == t
    ensures |t| > MaxTextLength ==> |r| == MaxTextLength + |Ellipsis|
    ensures |t| > MaxTextLength ==> r[..MaxTextLength] == t[..MaxTextLength] && r[MaxTextLength..] == Ellipsis
  {
    if |t| > MaxTextLength then t[..MaxTextLength] + Ellipsis else t
  }

  /** Removes each suffix in turn when the title (as it is by then) ends with it. */
  function StripSuffixes(t: string, suffixes: seq<string>): (r: string)
    ensures |r| <= |t| && r == t[..|r|]
    decreases |suffixes|
  {
    if suffixes == [] then t
    else
      var t' := if EndsWith(t, suffixes[0]) then t[..|t| - |suffixes[0]|] else t;
      var r := StripSuffixes(t', suffixes[1..]);
      assert r == t'[..|r|] && t' == t[..|t'|];
      r
  }

  /** The cleanup of a found title: suffixes off, then truncation; the sentinel is left alone. */
  function CleanTitle(t: string): (r: string)
    ensures |r| <= MaxTextLength + |Ellipsis|
    ensures t == NoTitle ==> r == NoTitle
    ensures t != NoTitle && |r| <= MaxTextLength ==> |r| <= |t| && r == t[..|r|]
    ensures |r| > MaxTextLength ==> |t| > MaxTextLength && r[..MaxTextLength] == t[..MaxTextLength] && r[MaxTextLength..] == Ellipsis
  {
    if t == NoTitle then t else Truncate(StripSuffixes(t, TitleSuffixes))
  }

  /** Index of the first candidate that is present and differs from `sentinel`, or `|cands|`. */
  function FirstDifferentIndex(cands: seq<Option<string>>, sentinel: string): (i: nat)
    ensures i <= |cands|
    ensures i < |cands| ==> cands[i].Some? && cands[i].value != sentinel
    ensures forall j :: 0 <= j < i ==> cands[j].None? || cands[j].value == sentinel
  {
    if cands == [] then 0
    else if cands[0].Some? && cands[0].value != sentinel then 0
    else 1 + FirstDifferentIndex(cands[1..], sentinel)
  }

  /**
   * A fallback chain over methods that each may set a value: the value of the
   * first method that sets something other than the sentinel, else the sentinel.
   */
  function FirstDifferent(cands: seq<Option<string>>, sentinel: string): (r: string)
    ensures r == sentinel <==> forall j :: 0 <= j < |cands| ==> cands[j].None? || cands[j].value == sentinel
  {
    var i := FirstDifferentIndex(cands, sentinel);
    if i < |cands| then cands[i].value else sentinel
  }

  /** What each of the four title methods sets, in chain order. */
  function TitleMethods(f: PageFindings): seq<Option<string>> {
    [ if NonEmpty(f.titleString) then Some(Strip(f.titleString.value)) else None,
      if NonBlank(f.firstH1Text) then Some(Strip(f.firstH1Text.value)) else None,
      if NonEmpty(f.ogTitleContent) then Some(Strip(f.ogTitleContent.value)) else None,
      FirstNonBlank(f.titleSelectorTexts) ]
  }

  /** What each of the four description methods sets, in chain order. */
  function DescriptionMethods(f: PageFindings): seq<Option<string>> {
    [ if NonEmpty(f.metaDescriptionContent) then Some(Strip(f.metaDescriptionContent.value)) else None,
      if NonEmpty(f.ogDescriptionContent) then Some(Strip(f.ogDescriptionContent.value)) else None,
      if NonBlank(f.firstParagraphText) then Some(Truncate(Strip(f.firstParagraphText.value))) else None,
      var d := FirstNonBlank(f.descriptionSelectorTexts); if d.Some? then Some(Truncate(d.value)) else None ]
  }

  function PageTitle(f: PageFindings): string {
    CleanTitle(FirstDifferent(TitleMethods(f), NoTitle))
  }

  function PageDescription(f: PageFindings): string {
    FirstDifferent(DescriptionMethods(f), NoDescription)
  }

  /** The selector loop: index of the first element with a non-blank text. */
  method FindNonBlank(texts: seq<Option<string>>) returns (i: nat)
    ensures i == FirstNonBlankIndex(texts)
  {
    i := 0;
    while i < |texts|
      invariant i <= |texts|
      invariant forall j :: 0 <= j < i ==> !NonBlank(texts[j])
    {
      if texts[i].Some? && Strip(texts[i].value) != "" {
        return;
      }
      i := i + 1;
    }
  }

  /** One step of a fallback chain: either the first candidate decides, or the rest of the chain does. */
  lemma FirstDifferentStep(cands: seq<Option<string>>, sentinel: string)
    requires cands != []
    ensures FirstDifferent(cands, sentinel) ==
      if cands[0].Some? && cands[0].value != sentinel then cands[0].value else FirstDifferent(cands[1..], sentinel)
  {
  }

  /** One method of a fallback chain: it sets the value from its candidate only while the value is still the sentinel. */
  function SetIfSentinel(v: string, cand: Option<string>, sentinel: string): string {
    if v == sentinel && cand.Some? then cand.value else v
  }

  /** Running four methods one after another from the sentinel gives the chain's outcome. */
  lemma RunChain4(c: seq<Option<string>>, sentinel: string, t1: string, t2: string, t3: string, t4: string)
    requires |c| == 4
    requires t1 == SetIfSentinel(sentinel, c[0], sentinel) && t2 == SetIfSentinel(t1, c[1], sentinel)
    requires t3 == SetIfSentinel(t2, c[2], sentinel) && t4 == SetIfSentinel(t3, c[3], sentinel)
    ensures t4 == FirstDifferent(c, sentinel)
  {
    FirstDifferentStep(c, sentinel);
    FirstDifferentStep(c[1..], sentinel);
    FirstDifferentStep(c[2..], sentinel);
    FirstDifferentStep(c[3..], sentinel);
    assert c[1..][0] == c[1] && c[2..][0] == c[2] && c[3..][0] == c[3];
    assert c[1..][1..] == c[2..] && c[2..][1..] == c[3..] && c[3..][1..] == [];
  }

  /** The title methods of `_extract_meta_from_html`, before the cleanup. */
  method ChooseTitle(f: PageFindings) returns (title: string)
    ensures title == FirstDifferent(TitleMethods(f), NoTitle)
  {
    title := NoTitle;
    if f.titleString.Some? && f.titleString.value != "" {
      title := Strip(f.titleString.value);
    }
    ghost var t1 := title;
    if title == NoTitle && f.firstH1Text.Some? && Strip(f.firstH1Text.value) != "" {
      title := Strip(f.firstH1Text.value);
    }
    ghost var t2 := title;
    if title == NoTitle && f.ogTitleContent.Some? && f.ogTitleContent.value != "" {
      title := Strip(f.ogTitleContent.value);
    }
    ghost var t3 := title;
    if title == NoTitle {
      var k := FindNonBlank(f.titleSelectorTexts);
      if k < |f.titleSelectorTexts| {
        title := Strip(f.titleSelectorTexts[k].value);
      }
    }
    RunChain4(TitleMethods(f), NoTitle, t1, t2, t3, title);
  }

  lemma StripSuffixesStep(t: string, suffixes: seq<string>)
    requires suffixes != []
    ensures StripSuffixes(t, suffixes) ==
      StripSuffixes(if EndsWith(t, suffixes[0]) then t[..|t| - |suffixes[0]|] else t, suffixes[1..])
  {
  }

  /** The suffix loop of the cleanup: each suffix in turn is cut off when the title ends with it. */
  method RemoveSuffixes(t: string, suffixes: seq<string>) returns (title: string)
    ensures title == StripSuffixes(t, suffixes)
  {
    title := t;
    var s := 0;
    while s < |suffixes|
      invariant s <= |suffixes|
      invariant StripSuffixes(title, suffixes[s..]) == StripSuffixes(t, suffixes)
    {
      ghost var before := title;
      var suffix := suffixes[s];
      if EndsWith(title, suffix) {
        title := title[..|title| - |suffix|];
      }
      StripSuffixesStep(before, suffixes[s..]);
      assert suffixes[s..][1..] == suffixes[s + 1..];
      s := s + 1;
    }
    assert suffixes[s..] == [];
  }

  /** The cleanup of `_extract_meta_from_html`: suffixes in list order, then truncation. */
  method CleanupTitle(found: string) returns (title: string)
    ensures title == CleanTitle(found)
  {
    title := found;
    if title != NoTitle {
      title := RemoveSuffixes(title, TitleSuffixes);
      if |title| > MaxTextLength {
        title := title[..MaxTextLength] + Ellipsis;
      }
    }
  }

  /** The description half of `_extract_meta_from_html`; only the last two methods truncate. */
  method ExtractDescription(f: PageFindings) returns (description: string)
    ensures description == PageDescription(f)
  {
    description := NoDescription;
    if f.metaDescriptionContent.Some? && f.metaDescriptionContent.value != "" {
      description := Strip(f.metaDescriptionContent.value);
    }
    ghost var t1 := description;
    if description == NoDescription && f.ogDescriptionContent.Some? && f.ogDescriptionContent.value != "" {
      description := Strip(f.ogDescriptionContent.value);
    }
    ghost var t2 := description;
    if description == NoDescription && f.firstParagraphText.Some? && Strip(f.firstParagraphText.value) != "" {
      var text := Strip(f.firstParagraphText.value);
      description := if |text| > MaxTextLength then text[..MaxTextLength] + Ellipsis else text;
    }
    ghost var t3 := description;
    if description == NoDescription {
      var k := FindNonBlank(f.descriptionSelectorTexts);
      if k < |f.descriptionSelectorTexts| {
        var text := Strip(f.descriptionSelectorTexts[k].value);
        description := if |text| > MaxTextLength then text[..MaxTextLength] + Ellipsis else text;
      }
    }
    RunChain4(DescriptionMethods(f), NoDescription, t1, t2, t3, description);
  }

  /**
   * `_extract_meta_from_html`: the title chain (title tag, first h1,
   * og:title, selectors) and its cleanup, then the description chain (meta
   * description, og:description, first paragraph, selectors). A method that
   * sets the sentinel text itself lets the next method run.
   */
  method ExtractMetaFromHtml(f: PageFindings) returns (title: string, description: string)
    ensures title == PageTitle(f) && description == PageDescription(f)
    ensures |title| <= MaxTextLength + |Ellipsis|
  {
    title := ChooseTitle(f);
    title := CleanupTitle(title);
    description := ExtractDescription(f);
  }

  /** A title tag whose text is only white space ends the chain with an empty title. */
  lemma BlankTitleTagEndsChain(f: PageFindings)
    requires f.titleString.Some? && f.titleString.value != "" && AllSpace(f.titleString.value)
    ensures PageTitle(f) == ""
  {
    StripSpec(f.titleString.value);
    assert TitleMethods(f)[0] == Some("");
    assert FirstDifferentIndex(TitleMethods(f), NoTitle) == 0;
  }

  /** A page whose own title is the sentinel text falls through to the h1 heading. */
  lemma SentinelTitleTagFallsThrough(f: PageFindings)
    requires f.titleString == Some(NoTitle) && NonBlank(f.firstH1Text) && Strip(f.firstH1Text.value) != NoTitle
    ensures PageTitle(f) == CleanTitle(Strip(f.firstH1Text.value))
  {
    StripUnchanged(NoTitle);
    var c := TitleMethods(f);
    assert c[0] == Some(NoTitle);
    assert FirstDifferentIndex(c, NoTitle) == 1 by {
      assert c[1..][0] == c[1];
    }
  }

  /**
   * Suffixes are tried in list order, each once: the first listed suffix the
   * title ends with is cut off, and only the suffixes after it are tried on
   * what is left (an earlier one that the shortened title ends with stays).
   */
  lemma {:induction false} StripSuffixesFirstMatch(t: string, suffixes: seq<string>, j: nat)
    requires j < |suffixes| && EndsWith(t, suffixes[j])
    requires forall m :: 0 <= m < j ==> !EndsWith(t, suffixes[m])
    ensures StripSuffixes(t, suffixes) == StripSuffixes(t[..|t| - |suffixes[j]|], suffixes[j + 1..])
    decreases j
  {
    if j > 0 {
      var rest := suffixes[1..];
      assert forall m :: 0 <= m < j - 1 ==> rest[m] == suffixes[m + 1];
      StripSuffixesFirstMatch(t, rest, j - 1);
      assert rest[j..] == suffixes[j + 1..];
    }
  }

  /** A title that ends with none of the suffixes is left as it is. */
  lemma {:induction false} StripSuffixesNoMatch(t: string, suffixes: seq<string>)
    requires forall m :: 0 <= m < |suffixes| ==> !EndsWith(t, suffixes[m])
    ensures StripSuffixes(t, suffixes) == t
    decreases |suffixes|
  {
    if suffixes != [] {
      var rest := suffixes[1..];
      assert forall m :: 0 <= m < |rest| ==> rest[m] == suffixes[m + 1];
      StripSuffixesNoMatch(t, rest);
    }
  }

  // ---------------------------------------------------------------------------
  // The strategy chain and the cache
  // ---------------------------------------------------------------------------

  /** `url.startswith(('http', 'https'))`. */
  predicate IsHttpUrl(url: string) {
    StartsWith(url, "http") || StartsWith(url, "https")
  }

  /** A strategy outcome that ends the chain: it did not raise and its title is not the sentinel. */
  predicate Usable(o: Option<(string, string)>) {
    o.Some? && o.value.0 != NoTitle
  }

  /**
   * The strategy chain from strategy `from` on: the pair it returns and the
   * number of strategies tried in all.
   */
  function ChainFrom(outcomes: seq<Option<(string, string)>>, from: nat): (r: ((string, string), nat))
    requires from <= |outcomes|
    ensures from <= r.1 <= |outcomes|
    ensures r.0.0 != NoTitle <==> exists k :: from <= k < |outcomes| && Usable(outcomes[k])
    ensures r.0.0 != NoTitle ==> from < r.1 && Usable(outcomes[r.1 - 1]) && r.0 == outcomes[r.1 - 1].value
    ensures r.0.0 != NoTitle ==> forall k :: from <= k < r.1 - 1 ==> !Usable(outcomes[k])
    ensures r.0.0 == NoTitle ==> r.0 == Sentinel && r.1 == |outcomes|
    decreases |outcomes| - from
  {
    if from == |outcomes| then (Sentinel, |outcomes|)
    else if Usable(outcomes[from]) then (outcomes[from].value, from + 1)
    else ChainFrom(outcomes, from + 1)
  }

  /** The pair a task of `get_all` contributes: its result, or the sentinel when it raised. */
  function TaskMeta(result: Option<(string, string)>): (string, string) {
    result.GetOr(Sentinel)
  }

  /**
   * The dict `get_all` builds: each task's pair assigned in URL order, so a
   * repeated URL ends up with the pair of its last task.
   */
  function MetaMap(urls: seq<string>, results: seq<Option<(string, string)>>): map<string, (string, string)>
    requires |results| == |urls|
  {
    if urls == [] then map[]
    else MetaMap(urls[..|urls| - 1], results[..|urls| - 1])[urls[|urls| - 1] := TaskMeta(results[|urls| - 1])]
  }

  /** One more task assigns its pair. */
  lemma MetaMapStep(urls: seq<string>, results: seq<Option<(string, string)>>, i: nat)
    requires |results| == |urls| && i < |urls|
    ensures MetaMap(urls[..i + 1], results[..i + 1]) == MetaMap(urls[..i], results[..i])[urls[i] := TaskMeta(results[i])]
  {
    assert urls[..i + 1][..i] == urls[..i];
    assert results[..i + 1][..i] == results[..i];
  }

  /** Its keys are exactly the URLs. */
  lemma {:induction false} MetaMapKeys(urls: seq<string>, results: seq<Option<(string, string)>>)
    requires |results| == |urls|
    ensures MetaMap(urls, results).Keys == set u | u in urls
  {
    if urls != [] {
      var n := |urls| - 1;
      MetaMapKeys(urls[..n], results[..n]);
      assert urls == urls[..n] + [urls[n]];
    }
  }

  /** A URL that no later entry repeats maps to its own task's pair. */
  lemma {:induction false} MetaMapLast(urls: seq<string>, results: seq<Option<(string, string)>>, i: nat)
    requires |results| == |urls| && i < |urls| && LastOccurrence(urls, i)
    ensures urls[i] in MetaMap(urls, results) && MetaMap(urls, results)[urls[i]] == TaskMeta(results[i])
  {
    var n := |urls| - 1;
    if i < n {
      MetaMapLast(urls[..n], results[..n], i);
    }
  }

  /** No later entry of `urls` repeats the one at `i` (so a dict assignment at `i` is the final one). */
  predicate LastOccurrence(urls: seq<string>, i: nat)
    requires i < |urls|
  {
    forall j :: i < j < |urls| ==> urls[j] != urls[i]
  }

  /** Appending one task's pair to the dict. */
  lemma MetaMapSnoc(urls: seq<string>, results: seq<Option<(string, string)>>, u: string, x: Option<(string, string)>)
    requires |results| == |urls|
    ensures MetaMap(urls + [u], results + [x]) == MetaMap(urls, results)[u := TaskMeta(x)]
  {
    assert (urls + [u])[..|urls|] == urls;
    assert (results + [x])[..|urls|] == results;
  }

  type Cache = map<string, (string, string)>

  /**
   * How one task of `get_all` ends: it raised without `_sync_get_meta`
   * answering (the cache is untouched), or `_sync_get_meta` ran with the
   * given strategy outcomes.
   */
  datatype FetchTask = FetchRaised | FetchRan(outcomes: seq<Option<(string, string)>>)

  /** Every task that runs has one outcome per strategy. */
  predicate TasksFit(tasks: seq<FetchTask>) {
    forall i :: 0 <= i < |tasks| && tasks[i].FetchRan? ==> |tasks[i].outcomes| == |Strategies|
  }

  /** What `_sync_get_meta` answers for `url` from `cache`, and the cache it leaves behind. */
  function GetMeta(cache: Cache, url: string, outcomes: seq<Option<(string, string)>>): ((string, string), Cache) {
    if url in cache then (cache[url], cache)
    else if !IsHttpUrl(url) then (Sentinel, cache)
    else var meta := ChainFrom(outcomes, 0).0; (meta, cache[url := meta])
  }

  /** One task: its result (`None`: it raised) and the cache after it. */
  function RunFetch(cache: Cache, url: string, task: FetchTask): (Option<(string, string)>, Cache) {
    match task
    case FetchRaised => (None, cache)
    case FetchRan(outcomes) => var (meta, c) := GetMeta(cache, url, outcomes); (Some(meta), c)
  }

  /** The tasks of `get_all` run one after another from `cache`: their results in URL order, and the final cache. */
  function Batch(cache: Cache, urls: seq<string>, tasks: seq<FetchTask>): (r: (seq<Option<(string, string)>>, Cache))
    requires |tasks| == |urls|
    ensures |r.0| == |urls|
  {
    if urls == [] then ([], cache)
    else
      var n := |urls| - 1;
      var prev := Batch(cache, urls[..n], tasks[..n]);
      var (x, c) := RunFetch(prev.1, urls[n], tasks[n]);
      (prev.0 + [x], c)
  }

  /** Running one more task. */
  lemma BatchStep(cache: Cache, urls: seq<string>, tasks: seq<FetchTask>, i: nat)
    requires |tasks| == |urls| && i < |urls|
    ensures Batch(cache, urls[..i + 1], tasks[..i + 1]) ==
      (Batch(cache, urls[..i], tasks[..i]).0 + [RunFetch(Batch(cache, urls[..i], tasks[..i]).1, urls[i], tasks[i]).0],
       RunFetch(Batch(cache, urls[..i], tasks[..i]).1, urls[i], tasks[i]).1)
  {
    assert urls[..i + 1][..i] == urls[..i];
    assert tasks[..i + 1][..i] == tasks[..i];
  }

  /** One task never changes or drops a cached entry, and adds only its own URL, when it ran and the URL is http. */
  lemma RunFetchCache(cache: Cache, url: string, task: FetchTask)
    ensures forall u :: u in cache ==> u in RunFetch(cache, url, task).1 && RunFetch(cache, url, task).1[u] == cache[u]
    ensures forall u :: u in RunFetch(cache, url, task).1 <==> u in cache || (u == url && task.FetchRan? && IsHttpUrl(url))
  {
  }

  /** The batch never changes or drops an entry that was cached before it. */
  lemma {:induction false} BatchKeepsCache(cache: Cache, urls: seq<string>, tasks: seq<FetchTask>, u: string)
    requires |tasks| == |urls| && u in cache
    ensures u in Batch(cache, urls, tasks).1 && Batch(cache, urls, tasks).1[u] == cache[u]
  {
    if urls != [] {
      var n := |urls| - 1;
      BatchKeepsCache(cache, urls[..n], tasks[..n], u);
      RunFetchCache(Batch(cache, urls[..n], tasks[..n]).1, urls[n], tasks[n]);
    }
  }

  /** After the batch, the cached URLs are those cached before and the http URLs whose task ran. */
  lemma {:induction false} BatchCacheKeys(cache: Cache, urls: seq<string>, tasks: seq<FetchTask>, u: string)
    requires |tasks| == |urls|
    ensures u in Batch(cache, urls, tasks).1 <==>
      u in cache || exists i :: 0 <= i < |urls| && urls[i] == u && tasks[i].FetchRan? && IsHttpUrl(u)
  {
    if urls != [] {
      var n := |urls| - 1;
      BatchCacheKeys(cache, urls[..n], tasks[..n], u);
      RunFetchCache(Batch(cache, urls[..n], tasks[..n]).1, urls[n], tasks[n]);
      if exists i :: 0 <= i < |urls| && urls[i] == u && tasks[i].FetchRan? && IsHttpUrl(u) {
        var i :| 0 <= i < |urls| && urls[i] == u && tasks[i].FetchRan? && IsHttpUrl(u);
        if i < n {
          assert urls[..n][i] == u && tasks[..n][i] == tasks[i];
        }
      }
    }
  }

  /**
   * A task that ran for an http URL returned what the final cache holds for
   * that URL: a repeated URL gets the same pair from every task that ran.
   */
  lemma {:induction false} BatchResultIsCached(cache: Cache, urls: seq<string>, tasks: seq<FetchTask>, i: nat)
    requires |tasks| == |urls| && i < |urls| && tasks[i].FetchRan? && IsHttpUrl(urls[i])
    ensures urls[i] in Batch(cache, urls, tasks).1
    ensures Batch(cache, urls, tasks).0[i] == Some(Batch(cache, urls, tasks).1[urls[i]])
  {
    var n := |urls| - 1;
    var prev := Batch(cache, urls[..n], tasks[..n]);
    RunFetchCache(prev.1, urls[n], tasks[n]);
    if i < n {
      assert urls[..n][i] == urls[i] && tasks[..n][i] == tasks[i];
      BatchResultIsCached(cache, urls[..n], tasks[..n], i);
      assert Batch(cache, urls, tasks).0[i] == prev.0[i];
    }
  }

  /** A result is missing exactly when its task raised. */
  lemma {:induction false} BatchResultRaised(cache: Cache, urls: seq<string>, tasks: seq<FetchTask>, i: nat)
    requires |tasks| == |urls| && i < |urls|
    ensures Batch(cache, urls, tasks).0[i].None? <==> tasks[i].FetchRaised?
  {
    var n := |urls| - 1;
    if i < n {
      assert urls[..n][i] == urls[i] && tasks[..n][i] == tasks[i];
      BatchResultRaised(cache, urls[..n], tasks[..n], i);
    }
  }

  class MetaFetcher {
    var cache: map<string, (string, string)>
    const maxConcurrency: int

    constructor (maxConcurrency: Option<int> := None)
      ensures cache == map[] && this.maxConcurrency == ResolveConcurrency(maxConcurrency)
    {
      cache := map[];
      this.maxConcurrency := ResolveConcurrency(maxConcurrency);
    }

    /**
     * `_sync_get_meta`: a cached URL is answered from the cache; an uncached
     * URL that does not start with "http" gets the sentinel and is not
     * cached; otherwise the strategies run in order (`outcomes[k]` is what
     * strategy k yields) and the result is cached. `attempted` is the number
     * of strategies run. A strategy's pair is any pair here: it is not tied
     * to `ExtractMetaFromHtml` of a page, so the bounds proved for the
     * extraction are not carried into the cache.
     */
    method SyncGetMeta(url: string, outcomes: seq<Option<(string, string)>>) returns (meta: (string, string), attempted: nat)
      requires |outcomes| == |Strategies|
      modifies this
      ensures url in old(cache) ==> meta == old(cache)[url] && attempted == 0 && cache == old(cache)
      ensures url !in old(cache) && !IsHttpUrl(url) ==> meta == Sentinel && attempted == 0 && cache == old(cache)
      ensures url !in old(cache) && IsHttpUrl(url) ==>
        (meta, attempted) == ChainFrom(outcomes, 0) && cache == old(cache)[url := meta]
    {
      if url in cache {
        return cache[url], 0;
      }
      if url == "" || !(StartsWith(url, "http") || StartsWith(url, "https")) {
        return Sentinel, 0;
      }
      var i := 0;
      while i < |outcomes|
        invariant i <= |outcomes|
        invariant ChainFrom(outcomes, i) == ChainFrom(outcomes, 0)
        invariant cache == old(cache)
      {
        match outcomes[i] {
          case Some(result) =>
            if result.0 != NoTitle {
              cache := cache[url := result];
              return result, i + 1;
            }
          case None =>
            // the strategy raised; the next one is tried
        }
        i := i + 1;
      }
      meta, attempted := Sentinel, |outcomes|;
      cache := cache[url := meta];
    }

    /**
     * `get_all`, with the concurrent tasks run one after another:
     * `tasks[i]` is how the asyncio task for `urls[i]` ends. A task that
     * runs goes through `_sync_get_meta` and so reads and writes the cache.
     * Every URL is a key of the result, and a repeated URL keeps the pair of
     * its last task (the sentinel when that task raised).
     */
    method GetAll(urls: seq<string>, tasks: seq<FetchTask>) returns (urlToMeta: map<string, (string, string)>)
      requires |tasks| == |urls| && TasksFit(tasks)
      modifies this
      ensures cache == Batch(old(cache), urls, tasks).1
      ensures urlToMeta == MetaMap(urls, Batch(old(cache), urls, tasks).0)
    {
      urlToMeta := map[];
      var i := 0;
      while i < |urls|
        invariant i <= |urls|
        invariant cache == Batch(old(cache), urls[..i], tasks[..i]).1
        invariant urlToMeta == MetaMap(urls[..i], Batch(old(cache), urls[..i], tasks[..i]).0)
      {
        ghost var prev := Batch(old(cache), urls[..i], tasks[..i]);
        var result: Option<(string, string)> := None;
        match tasks[i] {
          case FetchRaised =>
          case FetchRan(outcomes) =>
            var meta, _ := SyncGetMeta(urls[i], outcomes);
            result := Some(meta);
        }
        assert (result, cache) == RunFetch(prev.1, urls[i], tasks[i]);
        BatchStep(old(cache), urls, tasks, i);
        MetaMapSnoc(urls[..i], prev.0, urls[i], result);
        assert urls[..i + 1] == urls[..i] + [urls[i]];
        urlToMeta := urlToMeta[urls[i] := if result.None? then Sentinel else result.value];
        i := i + 1;
      }
      TakeFull(urls);
      TakeFull(tasks);
    }

    /** `clear_cache`. */
    method ClearCache()
      modifies this
      ensures cache == map[]
    {
      cache := map[];
    }

    /** `get_cache_size`. */
    method GetCacheSize() returns (n: nat)
      ensures n == |cache|
    {
      n := |cache|;
    }
  }

  /** Asking twice for the same URL gives the same pair, and the second time no strategy runs for an http URL. */
  method RepeatedCallIsCached(f: MetaFetcher, url: string, first: seq<Option<(string, string)>>, second: seq<Option<(string, string)>>)
    returns (m1: (string, string), m2: (string, string), attempted2: nat)
    requires |first| == |Strategies| && |second| == |Strategies|
    modifies f
    ensures m1 == m2
    ensures IsHttpUrl(url) ==> attempted2 == 0 && url in f.cache && f.cache[url] == m1
  {
    var a1;
    m1, a1 := f.SyncGetMeta(url, first);
    m2, attempted2 := f.SyncGetMeta(url, second);
  }

  /** An http URL is never empty, and the 'https' alternative adds nothing to the 'http' test. */
  lemma HttpUrlTest(url: string)
    ensures IsHttpUrl(url) <==> StartsWith(url, "http")
    ensures IsHttpUrl(url) ==> url != ""
  {
  }
}
