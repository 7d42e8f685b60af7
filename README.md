# Bookmark_AI — a verified model of its core

Bookmark_AI reads a browser's exported bookmark file. It keeps every link whose href starts with "http". For each such URL it fetches the page's title and description, using a per-instance cache and a chain of four request strategies. It then classifies every bookmark into one of ten fixed categories by asking a language model for a four-line answer. Bookmarks the first classifier could not classify go to a backup classifier. Its prompt also gives the bookmark's title and description, but adds what it reads from the URL's structure: host, path and keywords. Finally it writes the grouped result out as a Netscape bookmark file, with per-category statistics and a validity check.

This project models that pipeline's bookkeeping in Dafny and proves what each step promises. The network requests, the HTML parser's findings, the language-model replies and the ends of the concurrent tasks are all oracles. Each one is a parameter of the operation that consumes it.

Modules, in pipeline order:

- `Wrappers`, `Seqs`, `Text` and `OrderedDict` are shared vocabulary:
  - `Option`;
  - the elements of a gathered result list;
  - Python's `strip`, `split`, `join`, `lower` and `str(int)`;
  - Python's insertion-ordered `dict`, as an association list whose assignment keeps a present key's position.
- `Config`: the category list and the defaults the core reads.
- `Models`: the `Bookmark` class and the `ClassifiedBookmark` record.
- `Decorators`: the retry loop and the timing pass-through.
- `Fetchers`: the `MetaFetcher` class (cache, strategy chain, batch) and the page-metadata extraction.
- `Parsers`: the `BookmarkParser` class (href filter, bookmark construction).
- `BackupClassifier`: the answer parser shared by both tiers, the URL decomposition, the keyword line and the batch filter.
- `Classifier`: the `AIClassifier` class, whose grouped result and item list are kept in step, and the two-tier `classify_all`.
- `Exporters`: the `HtmlExporter` class (line structure, statistics, validation).

## Model

| member | source | states |
|---|---|---|
| Config.ResolveConcurrency | fetchers/meta_fetcher.py:51 | `max_concurrency or default`: an absent or zero argument gives 100, any other value is kept |
| Models.Bookmark.constructor | models/bookmark.py:22-26 | the five fields hold exactly the given values; description and folder default to "" and add_date to None |
| Models.NewBookmarkDefaults | models/bookmark.py:24-26 | a bookmark built from a title and URL alone has empty description and folder and no date |
| Models.Bookmark.Rename | models/bookmark.py:28-35 | the title becomes the new value; the frame allows no other field to change |
| Models.Bookmark.ReprString | models/bookmark.py:37-38 | the repr is `<Bookmark: ` + title + ` (` + url + `) in '` + folder + `'>`, position by position, with its exact length |
| Models.Bookmark.DisplayString | models/bookmark.py:40-41 | the str is title + ` (` + url + `) - ` + description, position by position, with its exact length |
| Decorators.Retry | utils/decorators.py:90-105 | at most max_attempts calls; the first success is returned at once; when all fail, exactly max_attempts calls are made and the last error is raised; sleeps = calls − 1; zero attempts raise None |
| Decorators.Timed | utils/decorators.py:29-44 | the wrapped result is returned unchanged and an exception is re-raised unchanged |
| Text.Strip | parsers/bookmark_parser.py:64 | definition: `strip` is `lstrip` then `rstrip` of white space |
| Text.StripLeftSpec | fetchers/meta_fetcher.py:245 | lstrip leaves a suffix, removes only white space, and leaves no leading white space |
| Text.StripRightSpec | fetchers/meta_fetcher.py:245 | rstrip leaves a prefix, removes only white space, and leaves no trailing white space |
| Text.StripSpec | parsers/bookmark_parser.py:64 | strip never lengthens, leaves no white space at either end, and is empty exactly for all-white-space input |
| Text.StripIdempotent | parsers/bookmark_parser.py:64 | stripping twice equals stripping once |
| Text.StripUnchanged | classifiers/ai_backup_classifier.py:230-233 | a string without white space at its ends is left as it is |
| Text.Split | classifiers/ai_backup_classifier.py:119 | a split on one character has at least one part, and no part contains the separator |
| Text.Join | classifiers/ai_backup_classifier.py:121-122 | definition: `sep.join(parts)`: "" for no parts, the parts separated by `sep` otherwise |
| Text.JoinSplit | classifiers/ai_backup_classifier.py:119-125 | joining a split with its separator gives back the string |
| Text.SplitJoin | classifiers/ai_backup_classifier.py:119-125 | splitting a join of separator-free parts gives back the parts |
| Text.JoinConcat | classifiers/ai_backup_classifier.py:121-122 | joining two non-empty part lists is joining their joins with the separator |
| Text.LowerChar | classifiers/ai_backup_classifier.py:114-116 | definition: an ASCII upper-case letter becomes its lower-case letter; every other character is kept |
| Text.ToLower | classifiers/ai_backup_classifier.py:114-116 | lowercasing keeps the length, leaves no upper-case letter and keeps every other character |
| Text.ToLowerIdempotent | classifiers/ai_backup_classifier.py:114-116 | lowercasing twice equals lowercasing once |
| Text.NatToDecimal | exporters/html_exporter.py:66 | `str(n)` is non-empty decimal digits without a leading zero |
| Text.DecimalRoundTrip | exporters/html_exporter.py:66 | reading back `str(n)` as an integer gives n |
| OrderedDict.LookupPresent | classifiers/ai_classifier.py:101 | `k in d` exactly when some entry has key k |
| OrderedDict.LookupEntry | exporters/html_exporter.py:110-112 | with distinct keys, every entry is what a lookup of its key returns |
| OrderedDict.Put | classifiers/ai_classifier.py:101-103 | after `d[k] = v`, k maps to v, every other key keeps its value, and the dict grows exactly when k was new |
| OrderedDict.PutShape | classifiers/ai_classifier.py:101-103 | an assignment replaces a present key's entry in place, or appends a new key at the end |
| OrderedDict.PutKeepsOrder | exporters/html_exporter.py:80 | an assignment moves no key: iteration order is insertion order |
| OrderedDict.PutUniqueKeys | classifiers/ai_classifier.py:101-103 | assigning never repeats a key |
| OrderedDict.ToMap | fetchers/meta_fetcher.py:332-338 | the plain map of a dict has exactly its keys and their looked-up values |
| OrderedDict.PutIsMapUpdate | fetchers/meta_fetcher.py:336-338 | assigning into the ordered dict is a map update of the map it stands for |
| OrderedDict.TotalEntriesUpdate | exporters/html_exporter.py:110-113 | replacing one inner dict changes the sum of sizes by its size difference |
| Seqs.Results | classifiers/ai_classifier.py:208 | a gathered list contributes nothing for an exception or None, else the value |
| Seqs.Somes | classifiers/ai_backup_classifier.py:281-286 | keeping present results never lengthens the list |
| Seqs.SomesConcat | classifiers/ai_backup_classifier.py:281-286 | the kept results of two runs are kept one after the other |
| Seqs.SomesMembers | classifiers/ai_backup_classifier.py:281-286 | a value is kept exactly when some result holds it |
| Seqs.SomesAllPresent | classifiers/ai_backup_classifier.py:281-286 | when every result is present nothing is dropped |
| Seqs.Failed | classifiers/ai_classifier.py:211-222 | definition: the elements, in order, whose result is an exception or None |
| Seqs.FailedCount | classifiers/ai_classifier.py:211-222 | every position is either a success or in the failed subset |
| Seqs.FailedMembers | classifiers/ai_classifier.py:211-222 | an element is failed exactly when it stands where there is no result |
| Seqs.NothingFailed | classifiers/ai_classifier.py:227 | the failed subset is empty exactly when every task produced a result |
| Fetchers.FirstNonBlankIndex | fetchers/meta_fetcher.py:262-266 | the first selector with non-blank text; none before it has one |
| Fetchers.FindNonBlank | fetchers/meta_fetcher.py:262-266 | the selector loop with `break` finds that first selector |
| Fetchers.Truncate | fetchers/meta_fetcher.py:277-278 | a text over 100 characters becomes its first 100 plus "..."; any other text is kept; the result is at most 103 long |
| Fetchers.StripSuffixes | fetchers/meta_fetcher.py:271-274 | suffix removal leaves a prefix of the title |
| Fetchers.StripSuffixesFirstMatch | fetchers/meta_fetcher.py:271-274 | the first listed suffix the title ends with is cut, and only the later suffixes are tried on what is left |
| Fetchers.StripSuffixesNoMatch | fetchers/meta_fetcher.py:271-274 | a title ending with no listed suffix is unchanged |
| Fetchers.RemoveSuffixes | fetchers/meta_fetcher.py:271-274 | the suffix loop computes that removal |
| Fetchers.TitleMethods | fetchers/meta_fetcher.py:243-266 | definition: what the title tag, the first h1, og:title and the selector loop each set, stripped, in chain order |
| Fetchers.DescriptionMethods | fetchers/meta_fetcher.py:283-309 | definition: what meta description, og:description, the first paragraph and the selector loop each set, stripped and (the last two) truncated, in chain order |
| Fetchers.PageTitle | fetchers/meta_fetcher.py:240-278 | definition: the cleaned title of the first title method that sets a non-sentinel value |
| Fetchers.PageDescription | fetchers/meta_fetcher.py:280-309 | definition: the first description method's non-sentinel value, else the sentinel |
| Fetchers.CleanTitle | fetchers/meta_fetcher.py:268-278 | the cleaned title is at most 103 long; the sentinel stays; an untruncated one is a prefix of the found title; a truncated one keeps its first 100 characters and ends in "..." |
| Fetchers.CleanupTitle | fetchers/meta_fetcher.py:268-278 | the cleanup code computes that cleaned title |
| Fetchers.FirstDifferentIndex | fetchers/meta_fetcher.py:241-266 | the first method of a chain that sets a non-sentinel value; every earlier one set nothing or the sentinel |
| Fetchers.FirstDifferent | fetchers/meta_fetcher.py:241-266 | a chain ends on the sentinel exactly when no method sets anything else |
| Fetchers.FirstDifferentStep | fetchers/meta_fetcher.py:248-260 | a chain is decided by its first method, or else by the rest |
| Fetchers.RunChain4 | fetchers/meta_fetcher.py:241-266 | four `if value == sentinel` steps in a row compute the chain's outcome |
| Fetchers.ChooseTitle | fetchers/meta_fetcher.py:241-266 | the title chain runs title tag, h1, og:title, then the selectors |
| Fetchers.ExtractDescription | fetchers/meta_fetcher.py:280-309 | the description chain runs meta description, og:description, first paragraph, then the selectors; only the last two truncate |
| Fetchers.ExtractMetaFromHtml | fetchers/meta_fetcher.py:236-311 | the pair is the page's cleaned title and its description, and the title is at most 103 long |
| Fetchers.BlankTitleTagEndsChain | fetchers/meta_fetcher.py:244-248 | a title tag of only white space ends the chain with "" |
| Fetchers.SentinelTitleTagFallsThrough | fetchers/meta_fetcher.py:244-251 | a title tag that reads "无标题" lets the h1 method run |
| Fetchers.HttpUrlTest | fetchers/meta_fetcher.py:85 | `startswith(('http','https'))` is the "http" test alone, and such a URL is not empty |
| Fetchers.ChainFrom | fetchers/meta_fetcher.py:90-112 | the chain returns the first non-raising result with a non-sentinel title, after running exactly the strategies up to it; with none, it returns the sentinel after running all four |
| Fetchers.MetaFetcher.constructor | fetchers/meta_fetcher.py:43-52 | the cache starts empty and the concurrency is resolved |
| Fetchers.MetaFetcher.SyncGetMeta | fetchers/meta_fetcher.py:70-112 | cached URL: cached pair, no strategy, cache unchanged; uncached non-http URL: sentinel, no strategy, cache unchanged; else the chain's pair, cached under that URL with no other entry changed |
| Fetchers.RepeatedCallIsCached | fetchers/meta_fetcher.py:81-83 | a second call returns the first call's pair, and for an http URL runs no strategy and finds it in the cache |
| Fetchers.TaskMeta | fetchers/meta_fetcher.py:334-338 | definition: a raised task's pair is the sentinel, any other the pair it returned |
| Fetchers.MetaMap | fetchers/meta_fetcher.py:332-338 | definition: the dict built by assigning each URL its task's pair, in list order |
| Fetchers.MetaMapStep | fetchers/meta_fetcher.py:333-338 | one more task assigns its pair, or the sentinel when it raised |
| Fetchers.MetaMapKeys | fetchers/meta_fetcher.py:332-341 | the keys of `get_all`'s dict are exactly the input URLs |
| Fetchers.MetaMapLast | fetchers/meta_fetcher.py:333-338 | a URL maps to its last task's pair, which is the sentinel when that task raised |
| Fetchers.MetaFetcher.GetAll | fetchers/meta_fetcher.py:313-341 | the tasks run `_sync_get_meta` one URL after another on the shared cache: the new cache is the batch's fold over the old one, and the dict maps each URL to its last task's pair |
| Fetchers.TasksFit | fetchers/meta_fetcher.py:90-112 | definition: a task that ran saw one outcome per strategy |
| Fetchers.GetMeta | fetchers/meta_fetcher.py:70-112 | definition: `_sync_get_meta` on a cache value: hit, non-http sentinel, or the chain's pair added to the cache |
| Fetchers.RunFetch | fetchers/meta_fetcher.py:326-338 | definition: one task of the batch, which either raised before answering or ran `_sync_get_meta` |
| Fetchers.Batch | fetchers/meta_fetcher.py:326-329 | one result per URL; the tasks run in list order, each seeing the cache the earlier ones left |
| Fetchers.BatchStep | fetchers/meta_fetcher.py:326-329 | one more task appends its result and replaces the cache with the one it leaves |
| Fetchers.RunFetchCache | fetchers/meta_fetcher.py:81-111 | a task keeps every cached entry, and adds at most its own URL, exactly when it ran on an http URL |
| Fetchers.BatchKeepsCache | fetchers/meta_fetcher.py:81-111 | a batch never drops or changes a cached entry |
| Fetchers.BatchCacheKeys | fetchers/meta_fetcher.py:81-111 | after a batch, a URL is cached exactly when it was before or some task for it ran and it is an http URL |
| Fetchers.BatchResultIsCached | fetchers/meta_fetcher.py:81-111 | a task that ran on an http URL answers with what the cache holds for that URL afterwards |
| Fetchers.BatchResultRaised | fetchers/meta_fetcher.py:329-336 | a task's result is missing exactly when it raised |
| Fetchers.MetaMapSnoc | fetchers/meta_fetcher.py:333-338 | one more URL and result assign that URL its pair, the sentinel when it raised, keeping every other entry |
| Fetchers.MetaFetcher.ClearCache | fetchers/meta_fetcher.py:343-345 | the cache becomes empty |
| Fetchers.MetaFetcher.GetCacheSize | fetchers/meta_fetcher.py:348-350 | the count is the number of cached URLs |
| Parsers.HrefUrls | parsers/bookmark_parser.py:62-66 | definition: the kept, stripped hrefs in document order |
| Parsers.MetaFor | parsers/bookmark_parser.py:83 | definition: `url_to_meta.get(url, sentinel)` |
| Parsers.LinkUrls | parsers/bookmark_parser.py:63-66 | each link is stripped, and kept only when it starts with "http" |
| Parsers.HrefUrlsStep | parsers/bookmark_parser.py:63-66 | reading one more link appends its URL, if kept |
| Parsers.HrefUrlsMembers | parsers/bookmark_parser.py:62-66 | a string is in the URL list exactly when it starts with "http" and is some link's stripped href |
| Parsers.HrefUrlsClean | parsers/bookmark_parser.py:64-66 | every URL in the list starts with "http" and has no surrounding white space |
| Parsers.HrefUrlsAppend | parsers/bookmark_parser.py:62-66 | document order is kept |
| Parsers.HrefUrlsAllKept | parsers/bookmark_parser.py:62-66 | duplicates are not removed: all-http links give one URL each |
| Parsers.MetaForLast | parsers/bookmark_parser.py:83 | every URL of the list is a key of the fetched dict and gets its last task's pair; the default is never used |
| Parsers.BookmarkParser.constructor | parsers/bookmark_parser.py:32-33 | the path is kept and the concurrency is resolved |
| Parsers.OpenParser | parsers/bookmark_parser.py:24-36 | there is a parser exactly when the file exists; a missing path is the FileNotFoundError |
| Parsers.BookmarkParser.GetUrlsOnly | parsers/bookmark_parser.py:97-123 | the loop computes the URL list |
| Parsers.BuildBookmarks | parsers/bookmark_parser.py:79-89 | one new, distinct bookmark per URL, in order, with that URL and the dict's pair (sentinel default); the failed list is exactly the ones with both sentinels |
| Parsers.BookmarkParser.Parse | parsers/bookmark_parser.py:40-95 | with no URL, nothing is fetched and [] is returned; else one bookmark per listed URL, in order, with the pair a fresh fetcher's batch gives its URL; sentinel bookmarks stay in the result |
| Parsers.ParseAgreesWithUrls | parsers/bookmark_parser.py:97-123 | `parse` and `get_urls_only` give the same URLs in the same order |
| BackupClassifier.FindMatch | classifiers/ai_backup_classifier.py:224-227 | `re.search` finds the leftmost position where the label is followed by a non-line-break character |
| BackupClassifier.LineFrom | classifiers/ai_backup_classifier.py:224-227 | `(.+)` captures up to the next line break or the end |
| BackupClassifier.SearchField | classifiers/ai_backup_classifier.py:224-227 | a label's field exists exactly when its pattern matches, and is a non-empty single line |
| BackupClassifier.SearchFieldIsFirstMatch | classifiers/ai_backup_classifier.py:224-233 | the field is the rest of the line after the label's leftmost match |
| BackupClassifier.ClampCategory | classifiers/ai_backup_classifier.py:236-238 | a listed category is kept, any other becomes "在线工具"; the result is always listed |
| BackupClassifier.ParseAiResponse | classifiers/ai_backup_classifier.py:211-252 | a result exists exactly when all four labels match, and its category is in the list |
| BackupClassifier.LabelShape | classifiers/ai_backup_classifier.py:224-227 | each label is five characters ending in the full-width colon |
| BackupClassifier.FirstMatchAt | classifiers/ai_backup_classifier.py:224-227 | a match with none before it is the one `re.search` finds |
| BackupClassifier.NoMatchInLine | classifiers/ai_backup_classifier.py:224-227 | one label never matches inside another label's line |
| BackupClassifier.FieldAfter | classifiers/ai_backup_classifier.py:224-233 | a field on its label's line is read back, after a prefix where that label does not match |
| BackupClassifier.NameField | classifiers/ai_backup_classifier.py:224 | the name line of a four-line answer is read back |
| BackupClassifier.DescriptionField | classifiers/ai_backup_classifier.py:225 | the description line of a four-line answer is read back |
| BackupClassifier.CategoryField | classifiers/ai_backup_classifier.py:226 | the category line of a four-line answer is read back |
| BackupClassifier.UrlField | classifiers/ai_backup_classifier.py:227 | the URL line of a four-line answer is read back |
| BackupClassifier.ParseFormatted | classifiers/ai_backup_classifier.py:211-252 | an answer in the requested four-line format parses to its stripped fields, with only the category clamped |
| BackupClassifier.ClassifyReply | classifiers/ai_backup_classifier.py:58-100 | a raised call or an empty content gives no result; otherwise the content is parsed; a result's category is listed |
| BackupClassifier.TaskResult | classifiers/ai_backup_classifier.py:281-286 | a task's outcome (`TaskOutcome`: it raised, or it returned after a reply): a raised task contributes nothing, a returned one exactly its reply's classification, so that a present classification is kept |
| BackupClassifier.TaskResults | classifiers/ai_backup_classifier.py:272-275 | one result per task, in task order |
| BackupClassifier.Successes | classifiers/ai_backup_classifier.py:281-289 | definition: the classifications of the tasks that returned one, in task order |
| BackupClassifier.SuccessesMembers | classifiers/ai_backup_classifier.py:281-286 | a kept classification is one some task produced, and its category is listed |
| BackupClassifier.SuccessesCount | classifiers/ai_backup_classifier.py:281-289 | at most one result per task, and one per task when none fails |
| BackupClassifier.SuccessesConcat | classifiers/ai_backup_classifier.py:281-286 | results are kept in task order |
| BackupClassifier.ClassifyFailedBookmarks | classifiers/ai_backup_classifier.py:255-289 | an empty input gives []; otherwise the returned and non-None results in order, counted, never more than the input |
| BackupClassifier.SplitHost | classifiers/ai_backup_classifier.py:119-125 | two or more labels: main domain = the last two labels, subdomain = the leading labels joined by "." ("" for exactly two); fewer: the whole host and "" |
| BackupClassifier.HostRecombines | classifiers/ai_backup_classifier.py:119-125 | either the subdomain is "" and the main domain is the host, or subdomain + "." + main domain is the host |
| BackupClassifier.PathKeywords | classifiers/ai_backup_classifier.py:133-134 | kept path segments are exactly those longer than two characters |
| BackupClassifier.PathKeywordsAppend | classifiers/ai_backup_classifier.py:133-134 | the segments are kept in path order: the kept segments of a concatenation are those of each part, one after the other |
| BackupClassifier.PathKeywordsSingleton | classifiers/ai_backup_classifier.py:134 | one segment is kept, once, exactly when it is longer than two characters |
| BackupClassifier.QueryKeywords | classifiers/ai_backup_classifier.py:137-139 | kept query parts are exactly the non-empty ones containing '=' |
| BackupClassifier.QueryKeywordsAppend | classifiers/ai_backup_classifier.py:137-139 | the parts are kept in query order: the kept parts of a concatenation are those of each part, one after the other |
| BackupClassifier.QueryKeywordsSingleton | classifiers/ai_backup_classifier.py:138-139 | one part is kept, once, exactly when it is a non-empty assignment |
| BackupClassifier.ExtractUrlInfo | classifiers/ai_backup_classifier.py:102-159 | host and path are lowercased and the full URL is kept; main domain and subdomain are the host's split; the keywords are the subdomain (if any), then the kept path segments, then the kept query parts, each once and in order; a failed `urlparse` gives the empty record |
| BackupClassifier.KeywordMembers | classifiers/ai_backup_classifier.py:128-139 | a keyword is the non-empty subdomain, a long segment of the lowercased path, or an assignment of the lowercased query |
| BackupClassifier.KeywordsNonEmpty | classifiers/ai_backup_classifier.py:128-139 | no keyword is empty |
| BackupClassifier.KeywordField | classifiers/ai_backup_classifier.py:182 | the keyword line is "无" without keywords, otherwise the keywords separated by ", " |
| BackupClassifier.KeywordFieldNonEmpty | classifiers/ai_backup_classifier.py:182 | the keyword line of extracted keywords is never empty |
| Classifier.InsertEntry | classifiers/ai_classifier.py:99-103 | after an insertion the item's composite key maps to its URL in its category, and every other (category, key) keeps its entry |
| Classifier.InsertCategory | classifiers/ai_classifier.py:101-102 | an insertion adds a category only when it is the item's own |
| Classifier.InsertKeepsOrder | classifiers/ai_classifier.py:101-103 | an insertion keeps every category at its position and appends a new one |
| Classifier.InsertWellFormed | classifiers/ai_classifier.py:99-103 | an insertion keeps categories distinct and each category's keys distinct |
| Classifier.InsertNoEmptyCategory | classifiers/ai_classifier.py:101-103 | an insertion never leaves an empty category |
| Classifier.Insert | classifiers/ai_classifier.py:100-103 | definition: the category's dict is created when absent, then the composite key is assigned the URL |
| Classifier.Group | classifiers/ai_classifier.py:99-105 | definition: the result built by inserting the items one after another |
| Classifier.GroupAppend | classifiers/ai_classifier.py:99-105 | grouping one more item is one more insertion |
| Classifier.GroupHasItem | classifiers/ai_classifier.py:100-105 | every item's key is present in its category |
| Classifier.GroupEntryAbsent | classifiers/ai_classifier.py:99-103 | a (category, key) no item has is absent |
| Classifier.GroupCategoryAbsent | classifiers/ai_classifier.py:101-102 | a category no item has is absent |
| Classifier.LastWithKeyPrefix | classifiers/ai_classifier.py:103 | the last item with a key is found in a prefix that contains it |
| Classifier.GroupLastWins | classifiers/ai_classifier.py:103 | a key maps to the URL of the last item with that category and key: collisions overwrite |
| Classifier.GroupWellFormed | classifiers/ai_classifier.py:99-105 | the grouped result has distinct categories and distinct keys in each |
| Classifier.GroupNoEmptyCategory | classifiers/ai_classifier.py:101-103 | no category of the grouped result is empty |
| Classifier.InsertTotal | classifiers/ai_classifier.py:103 | an insertion adds one site, unless the key was already there |
| Classifier.GroupTotal | classifiers/ai_classifier.py:100-105 | the site count is at most the item count, and equal when no two items collide |
| Classifier.Partition | classifiers/ai_classifier.py:211-222 | failed = the bookmarks whose result is an exception or None, in order; success count = the others; the two add up to the whole |
| Classifier.AIClassifier.constructor | classifiers/ai_classifier.py:26-38 | the result and the item list start empty and the concurrency is resolved |
| Classifier.AIClassifier.Add | classifiers/ai_classifier.py:99-105 | the item is inserted into the result and appended to the list, keeping the two in step |
| Classifier.AIClassifier.SyncClassifySingle | classifiers/ai_classifier.py:66-113 | the reply's classification is returned and, exactly when there is one, inserted; otherwise nothing changes |
| Classifier.AIClassifier.RunTask | classifiers/ai_classifier.py:53-64 | a task that raised contributes nothing; one that returned classified its reply |
| Classifier.AIClassifier.RunPrimaryTasks | classifiers/ai_classifier.py:204-208 | under the sequential schedule, each task's classification is inserted in input order, and the gathered list holds their results |
| Classifier.AIClassifier.MergeBackup | classifiers/ai_classifier.py:232-238 | the backup results are appended by the same insertion |
| Classifier.AIClassifier.ClassifyAll | classifiers/ai_classifier.py:198-243 | the failed subset is exactly the bookmarks without a result; the backup runs once, on exactly that list, only when it is non-empty; the items are the primary successes then the backup's successes |
| Classifier.AIClassifier.GetResult | classifiers/ai_classifier.py:245-252 | the result is the grouping of the items classified so far, as a value |
| Classifier.AIClassifier.GetItems | classifiers/ai_classifier.py:254-261 | a copy of the item list |
| Classifier.AIClassifier.GetStatistics | classifiers/ai_classifier.py:263-273 | each category, in result order, with the size of its dict |
| Classifier.ResultCategories | classifiers/ai_classifier.py:179-181 | no category outside the list is a key of the result |
| Classifier.ResultShape | classifiers/ai_classifier.py:100-105 | the result is well-formed, with no empty category, and holds at most one site per item |
| Classifier.ItemsInResult | classifiers/ai_classifier.py:100-105 | every item's composite key is present under its category |
| Exporters.FolderLine | exporters/html_exporter.py:84 | definition: the folder line of a category with the timestamp |
| Exporters.SiteLine | exporters/html_exporter.py:88 | definition: the link line of a site, its URL as `HREF` and its name as the text |
| Exporters.CategoryBlock | exporters/html_exporter.py:81-90 | definition: nothing for an empty category, else its folder line, the list opener, its link lines and the list closer |
| Exporters.CategoryLines | exporters/html_exporter.py:80-90 | definition: the blocks of all categories in dict order |
| Exporters.HtmlLines | exporters/html_exporter.py:69-96 | definition: header, category lines, footer |
| Exporters.SiteLines | exporters/html_exporter.py:87-88 | one link line per site, in dict order, with that site's URL, name and the timestamp |
| Exporters.HtmlLinesCount | exporters/html_exporter.py:69-96 | the file has 9 + Σ(3 + n) lines over the non-empty categories |
| Exporters.HtmlFrame | exporters/html_exporter.py:69-96 | the file starts with the seven header lines and ends with the two footer lines |
| Exporters.CategoryLinesAppend | exporters/html_exporter.py:80-90 | categories are written in dict order, one after another |
| Exporters.EmptyCategorySkipped | exporters/html_exporter.py:81-82 | an empty category writes nothing |
| Exporters.SiteLineWritten | exporters/html_exporter.py:88 | every site of every category has its link line in the file |
| Exporters.SiteLineInBody | exporters/html_exporter.py:80-90 | that line is among the category lines |
| Exporters.OnlyBodyLines | exporters/html_exporter.py:80-90 | between header and footer there are only list brackets, category folder lines and site links, all with the one timestamp |
| Exporters.BlockLine | exporters/html_exporter.py:84-90 | every line of a category block is such a line |
| Exporters.BodyLineExtend | exporters/html_exporter.py:80-90 | such a line stays one when another category follows |
| Exporters.AppendSites | exporters/html_exporter.py:87-88 | the inner loop appends the category's link lines |
| Exporters.SiteLinesStep | exporters/html_exporter.py:87-88 | one more site appends its line |
| Exporters.CategoryLinesStep | exporters/html_exporter.py:80-90 | one more category appends its block |
| Exporters.BlockAppended | exporters/html_exporter.py:84-90 | a non-empty category's lines are its folder line, the list opener, its links and the list closer |
| Exporters.Loosen | exporters/html_exporter.py:129-137 | typed data seen as untyped has the same categories, names and URLs |
| Exporters.TypedDataValid | exporters/html_exporter.py:125-143 | typed data is rejected exactly when it is empty |
| Exporters.LooseValid | exporters/html_exporter.py:125-143 | definition: the data is non-empty and every category is a dict of strings to strings |
| Exporters.ValidateLoose | exporters/html_exporter.py:118-143 | valid exactly when the data is non-empty and every category is a dict of strings to strings; a URL without a web prefix does not fail it |
| Exporters.ResolveFilename | exporters/html_exporter.py:31 | `filename or default`: an absent or empty name gives "sorted_bookmarks.html" |
| Exporters.SiteCounts | exporters/html_exporter.py:110-112 | each category, in order, with the size of its dict |
| Exporters.HtmlExporter.constructor | exporters/html_exporter.py:22-31 | the data is kept and the file name resolved |
| Exporters.HtmlExporter.GenerateHtml | exporters/html_exporter.py:59-98 | the output is the file's lines, for the decimal timestamp, joined by "\n" |
| Exporters.HtmlExporter.GetStatistics | exporters/html_exporter.py:100-116 | the per-category counts, then "总计" assigned the total number of sites |
| Exporters.StatisticsMeaning | exporters/html_exporter.py:107-116 | every category not named "总计" maps to its site count, and "总计" maps to the total |
| Exporters.StatisticsOfClassifiedData | exporters/html_exporter.py:107-116 | for listed categories, "总计" is appended after the per-category counts |
| Exporters.HtmlExporter.ValidateData | exporters/html_exporter.py:118-143 | on typed data, valid exactly when it is non-empty |

## Left out

- The HTTP transport is left out: sessions, `Retry`/`HTTPAdapter` back-off, header sets, random user agents and the random delay (fetchers/meta_fetcher.py:114-234). Each strategy is an oracle outcome: a pair, or `None` when it raised.
- BeautifulSoup is left out. Its findings for a page (`PageFindings`) and the hrefs of a bookmark file's links are inputs.
- The language-model completion call and the prompt templates are left out; the call is an external, non-deterministic service. Only the backup prompt's keyword line is modelled. `categories_str` is computed but unused.
- asyncio is sequentialised: semaphores, `to_thread` and `gather(return_exceptions=True)`. Each task's end is given as an outcome in input order, and each insertion is atomic.
- Completion order is not modelled. The primary classifier inserts into `result` and appends to `classified_items` inside the worker threads (classifiers/ai_classifier.py:64, 99-105), so it does so in the order the tasks finish. The model inserts in input order. The order of `classified_items`, of each dict of the result, and so of the exported file, is therefore one possible order of the source, not the only one.
- The fetcher's tasks likewise run one after another on the shared cache. In the source, two concurrent tasks for the same uncached URL can both miss the cache and both run the strategy chain; in the model the later one is answered from the cache.
- A negative `max_concurrency` makes `asyncio.Semaphore` raise ValueError in the fetcher's and the classifier's constructors (fetchers/meta_fetcher.py:52, classifiers/ai_classifier.py:39). The model's constructors accept it, since the semaphore is not modelled.
- Fetchers.MetaFetcher.SyncGetMeta: a strategy's pair is any pair, not tied to `ExtractMetaFromHtml` of a page, so the title bound proved for the extraction is not carried into the cache.
- The `async_retry` around `get_meta_single` and `classify_single` is folded into the per-task outcomes. The retry loop itself is modelled by `Decorators.Retry`, and `async_retry` runs the same loop.
- Logging, the durations measured by `timing`, and the `total_success` log figure (which double-counts) are not modelled.
- The driver scripts (gui.py, main.py, example.py), environment loading and pydantic range checks in config.py are not modelled. Only the category list and the defaults are kept.
- File I/O is not modelled: reading the bookmark file in `parse` and `get_urls_only`, and writing it in `export`. A read that fails would raise; the model assumes it succeeds.
- Homepage and sub-page nesting is not implemented by the core, and callers passing `items=` to the exporter have no counterpart.
- The exporter writes names, URLs and categories without HTML escaping. The model writes them the same way.
- `validate_data`'s warning for a URL without "http://" or "https://" is only logged. The model states that it does not affect the verdict.
- The `failed` list of `parse` is only used for a log line. The model returns it so that its contents can be stated.
- Text.ToLower: lowercases ASCII letters only; Python's `str.lower` also maps non-ASCII letters.
- Fetchers.MetaFetcher.GetAll: requires one task end per URL, and one outcome per strategy for a task that ran, since the oracle gives every task's end.
- Parsers.BookmarkParser.Parse: requires one fetch task end per listed URL for the same reason.

## Notes on the source

- The two classifiers carry identical copies of `_parse_ai_response`. The model defines it once, as `BackupClassifier.ParseAiResponse`, and the primary classifier uses it.
- `_sync_get_meta` checks the cache before it validates the URL.
- A non-http URL gets the sentinel without being cached. A URL whose strategies all fail is cached with the sentinel.
- An empty `<title>` string is skipped by the first title method, because an empty string is false. A title made only of white space strips to `""`: that value differs from the sentinel, so it ends the chain with an empty title.
- The classifier's grouped result overwrites an entry when two items share category, name and description. Its site count is therefore at most, not exactly, the number of items.
- The exporter's statistics overwrite a category named "总计" with the total. The fixed category list contains no such name.
