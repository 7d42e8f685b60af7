/**
 * The backup classifier, run on the bookmarks the primary classifier could
 * not classify: the URL decomposition that feeds its prompt (together with
 * the bookmark's title and description), the keyword line of the prompt,
 * the four-label reply parser (shared with the primary classifier) and the
 * filtering of the batch's results.
 *
 * The reply of the completion service is an oracle (`ApiReply`), and so is
 * what each task of the concurrent batch ended with (`TaskOutcome`).
 */
module BackupClassifier {
  import opened Wrappers
  import opened Text
  import opened Config
  import opened Models
  import opened Seqs

  // ---------------------------------------------------------------------------
  // The reply parser
  // ---------------------------------------------------------------------------

  const NameLabel: string := "网站名称："
  const DescriptionLabel: string := "网站描述："
  const CategoryLabel: string := "网站分类："
  const UrlLabel: string := "网站链接："

  /**
   * The pattern `label(.+)` matches at `i`: the label is there and is followed
   * by at least one character that is not a line break (`.` stops at '\n').
   */
  predicate MatchesAt(content: string, marker: string, i: nat) {
    i + |marker| < |content| && content[i..i + |marker|] == marker && content[i + |marker|] != '\n'
  }

  /** Some position of `content` matches `label(.+)`. */
  predicate HasMatch(content: string, marker: string) {
    exists i: nat :: i < |content| && MatchesAt(content, marker, i)
  }

  /** `re.search` from `from` on: the leftmost position where the pattern matches. */
  function FindMatch(content: string, marker: string, from: nat): (r: Option<nat>)
    requires from <= |content|
    ensures r.Some? ==> from <= r.value && MatchesAt(content, marker, r.value)
    ensures r.Some? ==> forall j: nat :: from <= j < r.value ==> !MatchesAt(content, marker, j)
    ensures r.None? ==> forall j: nat :: from <= j ==> !MatchesAt(content, marker, j)
    decreases |content| - from
  {
    if from == |content| then None
    else if MatchesAt(content, marker, from) then Some(from)
    else FindMatch(content, marker, from + 1)
  }

  /** The greedy `(.+)`: the characters from `start` up to the next line break or the end. */
  function LineFrom(content: string, start: nat): (r: string)
    requires start <= |content|
    ensures '\n' !in r
    ensures start + |r| <= |content| && r == content[start..start + |r|]
    ensures start + |r| == |content| || content[start + |r|] == '\n'
  {
    var rest := content[start..];
    var n := IndexOf(rest, '\n');
    assert '\n' !in rest[..n];
    rest[..n]
  }

  /**
   * Group 1 of `re.search(label + "(.+)", content)`: absent exactly when no
   * position matches; otherwise the non-empty rest of the line after the
   * label's first matching occurrence.
   */
  function SearchField(content: string, marker: string): (r: Option<string>)
    ensures r.Some? <==> HasMatch(content, marker)
    ensures r.Some? ==> r.value != "" && '\n' !in r.value
  {
    match FindMatch(content, marker, 0)
    case None => None
    case Some(i) => Some(LineFrom(content, i + |marker|))
  }

  /** A stripped category outside the list is replaced by the default category. */
  function ClampCategory(category: string): (r: string)
    ensures r in Categories
    ensures category in Categories ==> r == category
    ensures category !in Categories ==> r == DefaultCategory
  {
    if category in Categories then category else DefaultCategory
  }

  /**
   * `_parse_ai_response`: all four labels must match, or there is no result;
   * each field is the stripped captured text, and the category is clamped
   * to the category list.
   */
  function ParseAiResponse(content: string): (r: Option<ClassifiedBookmark>)
    ensures r.Some? <==>
      HasMatch(content, NameLabel) && HasMatch(content, DescriptionLabel) &&
      HasMatch(content, CategoryLabel) && HasMatch(content, UrlLabel)
    ensures r.Some? ==> r.value.category in Categories
  {
    var name := SearchField(content, NameLabel);
    var description := SearchField(content, DescriptionLabel);
    var category := SearchField(content, CategoryLabel);
    var url := SearchField(content, UrlLabel);
    if name.Some? && description.Some? && category.Some? && url.Some? then
      Some(ClassifiedBookmark(Strip(name.value), Strip(description.value),
                              ClampCategory(Strip(category.value)), Strip(url.value)))
    else
      None
  }

  /** `i` is the leftmost position where `label(.+)` matches. */
  predicate FirstMatch(content: string, marker: string, i: nat) {
    MatchesAt(content, marker, i) && forall j: nat :: j < i ==> !MatchesAt(content, marker, j)
  }

  /** The captured field of a label: the stripped rest of the line after its leftmost match. */
  lemma SearchFieldIsFirstMatch(content: string, marker: string)
    requires HasMatch(content, marker)
    ensures exists i: nat ::
              FirstMatch(content, marker, i) && SearchField(content, marker) == Some(LineFrom(content, i + |marker|))
  {
    var i := FindMatch(content, marker, 0).value;
    assert FirstMatch(content, marker, i);
  }

  /** The four-line reply the prompt asks for. */
  function FormatReply(name: string, description: string, category: string, url: string): string {
    NameLabel + name + "\n" + DescriptionLabel + description + "\n" +
    CategoryLabel + category + "\n" + UrlLabel + url
  }

  /** A reply field the parser reads back: one non-empty line without the full-width colon. */
  predicate PlainField(f: string) {
    f != [] && '\n' !in f && '：' !in f
  }

  /** One of the four labels. */
  predicate IsLabel(m: string) {
    m == NameLabel || m == DescriptionLabel || m == CategoryLabel || m == UrlLabel
  }

  /** The labels are five characters long, end in the full-width colon and have no other colon or line break. */
  lemma LabelShape(m: string)
    requires IsLabel(m)
    ensures |m| == 5 && m[4] == '：' && '\n' !in m
    ensures forall k :: 0 <= k < 4 ==> m[k] != '：'
  {
  }

  /** The leftmost match is the one with no match before it. */
  lemma FirstMatchAt(content: string, marker: string, p: nat)
    requires MatchesAt(content, marker, p)
    requires forall j: nat :: j < p ==> !MatchesAt(content, marker, j)
    ensures FindMatch(content, marker, 0) == Some(p)
  {
  }

  /** A label other than the line's own does not match anywhere in the line `lab + f` or at its line break. */
  lemma NoMatchInLine(content: string, start: nat, lab: string, f: string, marker: string, j: nat)
    requires IsLabel(lab) && IsLabel(marker) && lab != marker && PlainField(f)
    requires start + |lab| + |f| < |content|
    requires content[start..start + |lab| + |f| + 1] == lab + f + "\n"
    requires start <= j <= start + |lab| + |f|
    ensures !MatchesAt(content, marker, j)
  {
    LabelShape(lab);
    LabelShape(marker);
    var e := start + 5 + |f|;
    var line := content[start..e + 1];
    assert content[e] == line[e - start] == '\n';
    if j + 5 <= |content| {
      var window := content[j..j + 5];
      if j + 5 > e {
        assert window[e - j] == '\n';
      } else if j == start {
        assert window == line[..5] == lab;
      } else {
        assert window[4] == line[j + 4 - start] == f[j - start - 1];
      }
    }
  }

  /** A field on the line of its label, after a prefix where that label does not match, is read back. */
  lemma FieldAfter(before: string, marker: string, f: string, rest: string)
    requires IsLabel(marker) && PlainField(f)
    requires rest == [] || rest[0] == '\n'
    requires forall j: nat :: j < |before| ==> !MatchesAt(before + marker + f + rest, marker, j)
    ensures SearchField(before + marker + f + rest, marker) == Some(f)
  {
    var content := before + marker + f + rest;
    var p := |before| + |marker|;
    assert content[|before|..p] == marker;
    assert content[p] == f[0];
    assert MatchesAt(content, marker, |before|);
    FirstMatchAt(content, marker, |before|);
    if rest == [] {
      assert content[p..] == f;
      IndexOfAbsent(f, '\n');
    } else {
      assert content[p..] == f + ['\n'] + rest[1..];
      IndexOfPrefix(f, '\n', rest[1..]);
    }
  }

  lemma NameField(name: string, description: string, category: string, url: string)
    requires PlainField(name) && PlainField(description) && PlainField(category) && PlainField(url)
    ensures SearchField(FormatReply(name, description, category, url), NameLabel) == Some(name)
  {
    var rest := "\n" + DescriptionLabel + description + "\n" + CategoryLabel + category + "\n" + UrlLabel + url;
    assert [] + NameLabel + name + rest == FormatReply(name, description, category, url);
    FieldAfter([], NameLabel, name, rest);
  }

  lemma DescriptionField(name: string, description: string, category: string, url: string)
    requires PlainField(name) && PlainField(description) && PlainField(category) && PlainField(url)
    ensures SearchField(FormatReply(name, description, category, url), DescriptionLabel) == Some(description)
  {
    var l1 := NameLabel + name + "\n";
    var rest := "\n" + CategoryLabel + category + "\n" + UrlLabel + url;
    var content := l1 + DescriptionLabel + description + rest;
    assert content == FormatReply(name, description, category, url);
    assert content[0..|l1|] == l1;
    forall j: nat | j < |l1| ensures !MatchesAt(content, DescriptionLabel, j) {
      NoMatchInLine(content, 0, NameLabel, name, DescriptionLabel, j);
    }
    FieldAfter(l1, DescriptionLabel, description, rest);
  }

  lemma CategoryField(name: string, description: string, category: string, url: string)
    requires PlainField(name) && PlainField(description) && PlainField(category) && PlainField(url)
    ensures SearchField(FormatReply(name, description, category, url), CategoryLabel) == Some(category)
  {
    var l1 := NameLabel + name + "\n";
    var l2 := DescriptionLabel + description + "\n";
    var rest := "\n" + UrlLabel + url;
    var content := l1 + l2 + CategoryLabel + category + rest;
    assert content == FormatReply(name, description, category, url);
    assert content[0..|l1|] == l1;
    assert content[|l1|..|l1| + |l2|] == l2;
    forall j: nat | j < |l1 + l2| ensures !MatchesAt(content, CategoryLabel, j) {
      if j < |l1| {
        NoMatchInLine(content, 0, NameLabel, name, CategoryLabel, j);
      } else {
        NoMatchInLine(content, |l1|, DescriptionLabel, description, CategoryLabel, j);
      }
    }
    FieldAfter(l1 + l2, CategoryLabel, category, rest);
  }

  lemma UrlField(name: string, description: string, category: string, url: string)
    requires PlainField(name) && PlainField(description) && PlainField(category) && PlainField(url)
    ensures SearchField(FormatReply(name, description, category, url), UrlLabel) == Some(url)
  {
    var l1 := NameLabel + name + "\n";
    var l2 := DescriptionLabel + description + "\n";
    var l3 := CategoryLabel + category + "\n";
    var content := l1 + l2 + l3 + UrlLabel + url + [];
    assert content == FormatReply(name, description, category, url);
    assert content[0..|l1|] == l1;
    assert content[|l1|..|l1| + |l2|] == l2;
    assert content[|l1| + |l2|..|l1| + |l2| + |l3|] == l3;
    forall j: nat | j < |l1 + l2 + l3| ensures !MatchesAt(content, UrlLabel, j) {
      if j < |l1| {
        NoMatchInLine(content, 0, NameLabel, name, UrlLabel, j);
      } else if j < |l1| + |l2| {
        NoMatchInLine(content, |l1|, DescriptionLabel, description, UrlLabel, j);
      } else {
        NoMatchInLine(content, |l1| + |l2|, CategoryLabel, category, UrlLabel, j);
      }
    }
    FieldAfter(l1 + l2 + l3, UrlLabel, url, []);
  }

  /** The parser reads back every well-formed four-line reply, clamping only the category. */
  lemma ParseFormatted(name: string, description: string, category: string, url: string)
    requires PlainField(name) && PlainField(description) && PlainField(category) && PlainField(url)
    ensures ParseAiResponse(FormatReply(name, description, category, url)) ==
      Some(ClassifiedBookmark(Strip(name), Strip(description), ClampCategory(Strip(category)), Strip(url)))
  {
    NameField(name, description, category, url);
    DescriptionField(name, description, category, url);
    CategoryField(name, description, category, url);
    UrlField(name, description, category, url);
  }

  // ---------------------------------------------------------------------------
  // One bookmark and the batch
  // ---------------------------------------------------------------------------

  /** What the completion call gave: it raised, or it returned a message content (possibly none). */
  datatype ApiReply = ApiFailed | ApiReplied(content: Option<string>)

  /** How one task of the concurrent batch ended: it raised, or the retried single classification returned. */
  datatype TaskOutcome = TaskRaised | TaskReturned(reply: ApiReply)

  /**
   * `_sync_classify_single`: an exception or an empty content gives no
   * result; otherwise the reply is parsed.
   */
  function ClassifyReply(reply: ApiReply): (r: Option<ClassifiedBookmark>)
    ensures reply.ApiFailed? ==> r.None?
    ensures reply.ApiReplied? && (reply.content.None? || reply.content == Some("")) ==> r.None?
    ensures reply.ApiReplied? && reply.content.Some? && reply.content.value != "" ==> r == ParseAiResponse(reply.content.value)
    ensures r.Some? ==> r.value.category in Categories
  {
    match reply
    case ApiFailed => None
    case ApiReplied(content) =>
      if content.None? || content.value == "" then None else ParseAiResponse(content.value)
  }

  /**
   * The classification a task contributes, if any: nothing when it raised,
   * and when it returned, whatever its reply classifies to (kept exactly
   * when that is not None).
   */
  function TaskResult(o: TaskOutcome): (r: Option<ClassifiedBookmark>)
    ensures o.TaskRaised? ==> r.None?
    ensures o.TaskReturned? ==> r == ClassifyReply(o.reply)
    ensures r.Some? ==> r.value.category in Categories
  {
    match o
    case TaskRaised => None
    case TaskReturned(reply) => ClassifyReply(reply)
  }

  /** What each task of the batch contributed, in task order. */
  function TaskResults(outcomes: seq<TaskOutcome>): (r: seq<Option<ClassifiedBookmark>>)
    ensures |r| == |outcomes| && forall i :: 0 <= i < |outcomes| ==> r[i] == TaskResult(outcomes[i])
  {
    Map(TaskResult, outcomes)
  }

  /** One more task appends its result. */
  lemma TaskResultsSnoc(outcomes: seq<TaskOutcome>, i: nat)
    requires i < |outcomes|
    ensures TaskResults(outcomes[..i + 1]) == TaskResults(outcomes[..i]) + [TaskResult(outcomes[i])]
  {
    MapSnoc(TaskResult, outcomes, i);
  }

  /**
   * The results kept by `classify_failed_bookmarks`: those that are neither
   * an exception nor None, in task order.
   */
  function Successes(outcomes: seq<TaskOutcome>): seq<ClassifiedBookmark> {
    Somes(TaskResults(outcomes))
  }

  /** The kept classifications are those some task produced; all of them are in the category list. */
  lemma SuccessesMembers(outcomes: seq<TaskOutcome>, c: ClassifiedBookmark)
    ensures c in Successes(outcomes) <==> exists i :: 0 <= i < |outcomes| && TaskResult(outcomes[i]) == Some(c)
    ensures c in Successes(outcomes) ==> c.category in Categories
  {
    SomesMembers(TaskResults(outcomes), c);
  }

  /** At most one classification per task, and one per task when no task fails. */
  lemma SuccessesCount(outcomes: seq<TaskOutcome>)
    ensures |Successes(outcomes)| <= |outcomes|
    ensures (forall i :: 0 <= i < |outcomes| ==> TaskResult(outcomes[i]).Some?) ==> |Successes(outcomes)| == |outcomes|
  {
    if forall i :: 0 <= i < |outcomes| ==> TaskResult(outcomes[i]).Some? {
      SomesAllPresent(TaskResults(outcomes));
    }
  }

  /** Keeping the successes of two runs of tasks one after the other keeps them in that order. */
  lemma SuccessesConcat(a: seq<TaskOutcome>, b: seq<TaskOutcome>)
    ensures Successes(a + b) == Successes(a) + Successes(b)
  {
    MapConcat(TaskResult, a, b);
    SomesConcat(TaskResults(a), TaskResults(b));
  }

  /**
   * `classify_failed_bookmarks`: `outcomes[i]` is how the asyncio task for
   * `failed[i]` ended. An empty list gives an empty result; otherwise the
   * successful classifications are collected in order and counted.
   */
  method ClassifyFailedBookmarks(failed: seq<Bookmark>, outcomes: seq<TaskOutcome>)
    returns (classified: seq<ClassifiedBookmark>, successCount: nat)
    requires |outcomes| == |failed|
    ensures failed == [] ==> classified == []
    ensures classified == Successes(outcomes)
    ensures successCount == |classified| && successCount <= |failed|
  {
    if failed == [] {
      return [], 0;
    }
    classified, successCount := [], 0;
    var i := 0;
    while i < |outcomes|
      invariant i <= |outcomes|
      invariant classified == Successes(outcomes[..i])
      invariant successCount == |classified|
    {
      TaskResultsSnoc(outcomes, i);
      SomesSnoc(TaskResults(outcomes[..i]), TaskResult(outcomes[i]));
      var result := TaskResult(outcomes[i]);
      if result.Some? {
        classified := classified + [result.value];
        successCount := successCount + 1;
      }
      i := i + 1;
    }
    TakeFull(outcomes);
  }

  // ---------------------------------------------------------------------------
  // URL decomposition and the keyword line of the prompt
  // ---------------------------------------------------------------------------

  /** The components `urlparse` splits a URL into, as far as they are used. */
  datatype UrlParts = UrlParts(netloc: string, path: string, query: string)

  /** The dictionary `_extract_url_info` returns. */
  datatype UrlInfo = UrlInfo(domain: string, mainDomain: string, subdomain: string,
                             path: string, keywords: seq<string>, fullUrl: string)

  /**
   * The host split: with at least two dot-labels, the main domain is the
   * last two labels and the subdomain the leading ones ("" when there are
   * exactly two); otherwise the whole host is the main domain.
   */
  function SplitHost(domain: string): (r: (string, string))
    ensures var parts := Split(domain, '.');
      |parts| >= 2 ==> r.0 == parts[|parts| - 2] + "." + parts[|parts| - 1]
    ensures var parts := Split(domain, '.');
      |parts| < 2 ==> r == (domain, "")
    ensures var parts := Split(domain, '.');
      |parts| == 2 ==> r.1 == ""
    ensures var parts := Split(domain, '.');
      |parts| > 2 ==> r.1 == Join(parts[..|parts| - 2], ".")
  {
    var parts := Split(domain, '.');
    var n := |parts|;
    if n >= 2 then
      assert parts[n - 2..] == [parts[n - 2], parts[n - 1]];
      assert Join([parts[n - 2], parts[n - 1]], ".") == parts[n - 2] + "." + Join([parts[n - 1]], ".");
      (Join(parts[n - 2..], "."), if n > 2 then Join(parts[..n - 2], ".") else "")
    else
      (domain, "")
  }

  /** The main domain and the subdomain put back together give the host. */
  lemma HostRecombines(domain: string)
    ensures var (main, sub) := SplitHost(domain);
      (sub == "" && main == domain) || sub + "." + main == domain
  {
    var parts := Split(domain, '.');
    var n := |parts|;
    JoinSplit(domain, '.');
    if n > 2 {
      assert parts == parts[..n - 2] + parts[n - 2..];
      JoinConcat(parts[..n - 2], parts[n - 2..], ".");
    } else if n == 2 {
      assert parts[n - 2..] == parts;
    }
  }

  /** The path segments kept as keywords: those longer than two characters, in order. */
  function PathKeywords(segments: seq<string>): (r: seq<string>)
    ensures forall k :: k in r <==> k in segments && |k| > 2
    ensures |r| <= |segments|
  {
    if segments == [] then []
    else (if |segments[0]| > 2 then [segments[0]] else []) + PathKeywords(segments[1..])
  }

  /** Keeping the long segments distributes over concatenation: the order of the segments is kept. */
  lemma {:induction false} PathKeywordsAppend(a: seq<string>, b: seq<string>)
    ensures PathKeywords(a + b) == PathKeywords(a) + PathKeywords(b)
  {
    if a != [] {
      assert (a + b)[0] == a[0] && (a + b)[1..] == a[1..] + b;
      PathKeywordsAppend(a[1..], b);
    } else {
      assert a + b == b;
    }
  }

  /** A single segment is kept, once, exactly when it is longer than two characters. */
  lemma PathKeywordsSingleton(s: string)
    ensures PathKeywords([s]) == if |s| > 2 then [s] else []
  {
    assert [s][1..] == [];
  }

  /** The query parts kept as keywords: non-empty ones containing '=', in order. */
  function QueryKeywords(parts: seq<string>): (r: seq<string>)
    ensures forall k :: k in r <==> k in parts && k != "" && '=' in k
    ensures |r| <= |parts|
  {
    if parts == [] then []
    else (if parts[0] != "" && '=' in parts[0] then [parts[0]] else []) + QueryKeywords(parts[1..])
  }

  /** Keeping the assignments distributes over concatenation: the order of the parts is kept. */
  lemma {:induction false} QueryKeywordsAppend(a: seq<string>, b: seq<string>)
    ensures QueryKeywords(a + b) == QueryKeywords(a) + QueryKeywords(b)
  {
    if a != [] {
      assert (a + b)[0] == a[0] && (a + b)[1..] == a[1..] + b;
      QueryKeywordsAppend(a[1..], b);
    } else {
      assert a + b == b;
    }
  }

  /** A single query part is kept, once, exactly when it is a non-empty assignment. */
  lemma QueryKeywordsSingleton(s: string)
    ensures QueryKeywords([s]) == if s != "" && '=' in s then [s] else []
  {
    assert [s][1..] == [];
  }

  /**
   * `_extract_url_info`: `parsed` is what `urlparse` gave (`None`: it
   * raised, and the information is empty). Host, path and query are
   * lowercased; the keywords are the subdomain (when there is one), then the
   * long path segments, then the query parts that are assignments.
   */
  function ExtractUrlInfo(url: string, parsed: Option<UrlParts>): (r: UrlInfo)
    ensures r.fullUrl == url
    ensures parsed.None? ==> r == UrlInfo("", "", "", "", [], url)
    ensures NoUpper(r.domain) && NoUpper(r.path)
    ensures parsed.Some? ==> r.domain == ToLower(parsed.value.netloc) && r.path == ToLower(parsed.value.path)
    ensures parsed.Some? ==> (r.mainDomain, r.subdomain) == SplitHost(r.domain)
    ensures parsed.Some? ==>
      var query := ToLower(parsed.value.query);
      r.keywords == (if r.subdomain != "" then [r.subdomain] else []) + PathKeywords(Split(r.path, '/')) +
                    (if query != "" then QueryKeywords(Split(query, '&')) else [])
  {
    match parsed
    case None => UrlInfo("", "", "", "", [], url)
    case Some(parts) =>
      var domain := ToLower(parts.netloc);
      var path := ToLower(parts.path);
      var query := ToLower(parts.query);
      var (main, sub) := SplitHost(domain);
      var keywords := (if sub != "" then [sub] else []) + PathKeywords(Split(path, '/')) +
                      (if query != "" then QueryKeywords(Split(query, '&')) else []);
      UrlInfo(domain, main, sub, path, keywords, url)
  }

  /** A keyword is the subdomain, a long segment of the lowercased path, or an assignment of the lowercased query. */
  lemma KeywordMembers(url: string, parts: UrlParts, k: string)
    ensures var info := ExtractUrlInfo(url, Some(parts));
      var query := ToLower(parts.query);
      k in info.keywords <==>
        (k == info.subdomain && k != "") ||
        (k in Split(info.path, '/') && |k| > 2) ||
        (query != "" && k in Split(query, '&') && k != "" && '=' in k)
  {
  }

  /** No keyword is empty: the subdomain only when non-empty, and path segments and assignments never are. */
  lemma KeywordsNonEmpty(url: string, parsed: Option<UrlParts>)
    ensures forall k :: k in ExtractUrlInfo(url, parsed).keywords ==> k != ""
  {
    if parsed.Some? {
      forall k | k in ExtractUrlInfo(url, parsed).keywords ensures k != "" {
        KeywordMembers(url, parsed.value, k);
      }
    }
  }

  /** The keyword line of `_build_prompt`: the keywords joined by ", ", or "无" when there are none. */
  function KeywordField(keywords: seq<string>): (r: string)
    ensures keywords == [] ==> r == "无"
    ensures |keywords| == 1 ==> r == keywords[0]
    ensures |keywords| > 1 ==> r == keywords[0] + ", " + KeywordField(keywords[1..])
  {
    if keywords == [] then "无" else Join(keywords, ", ")
  }

  /** The keyword line of an extracted URL is never empty. */
  lemma {:induction false} KeywordFieldNonEmpty(keywords: seq<string>)
    requires forall k :: k in keywords ==> k != ""
    ensures KeywordField(keywords) != ""
  {
    if |keywords| > 1 {
      assert keywords[0] in keywords;
    } else if |keywords| == 1 {
      assert keywords[0] in keywords;
    }
  }
}
