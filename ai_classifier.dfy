/**
 * The primary classifier: it classifies every bookmark, keeps the grouped
 * result `category -> {name + " - " + description -> url}` and the flat list
 * of classified items in step, hands exactly the failed bookmarks to the
 * backup classifier once, and merges the backup's results by the same rule.
 *
 * The concurrent tasks are run one after another in input order, and each
 * insertion is atomic.
 */
module Classifier {
  import opened Wrappers
  import opened Config
  import opened OrderedDict
  import opened Models
  import opened BackupClassifier
  import opened Seqs

  /** The grouped result: category to (composite key to url), both in insertion order. */
  type Grouped = Dict<string, Dict<string, string>>

  /** The key a classification is stored under inside its category. */
  function CompositeKey(c: ClassifiedBookmark): string {
    c.name + " - " + c.description
  }

  /** The url stored under `key` in category `category`, if any. */
  function Entry(g: Grouped, category: string, key: string): Option<string> {
    if Lookup(g, category).Some? then Lookup(Lookup(g, category).value, key) else None
  }

  /** Every category present holds at least one site. */
  predicate NoEmptyCategory(g: Grouped) {
    forall j :: 0 <= j < |g| ==> |g[j].1| > 0
  }

  /**
   * The insertion of one classification: the category dict is created when
   * absent (at the end), and the url is stored under the composite key,
   * overwriting an earlier url for the same key.
   */
  function Insert(result: Grouped, c: ClassifiedBookmark): Grouped {
    var inner: Dict<string, string> := if Lookup(result, c.category).Some? then Lookup(result, c.category).value else [];
    Put(result, c.category, Put(inner, CompositeKey(c), c.url))
  }

  /** After an insertion, the item's key holds its url and every other (category, key) pair is as before. */
  lemma InsertEntry(result: Grouped, c: ClassifiedBookmark, cat: string, key: string)
    ensures Entry(Insert(result, c), cat, key) ==
      if cat == c.category && key == CompositeKey(c) then Some(c.url) else Entry(result, cat, key)
  {
  }

  /** An insertion adds the item's category and no other. */
  lemma InsertCategory(result: Grouped, c: ClassifiedBookmark, cat: string)
    ensures Lookup(Insert(result, c), cat).Some? <==> Lookup(result, cat).Some? || cat == c.category
  {
  }

  /** An insertion keeps every category at its position, and appends a new one at the end. */
  lemma InsertKeepsOrder(result: Grouped, c: ClassifiedBookmark)
    ensures |Insert(result, c)| >= |result|
    ensures forall j :: 0 <= j < |result| ==> Insert(result, c)[j].0 == result[j].0
    ensures Lookup(result, c.category).None? ==> Insert(result, c) == result + [(c.category, [(CompositeKey(c), c.url)])]
  {
    var inner: Dict<string, string> := if Lookup(result, c.category).Some? then Lookup(result, c.category).value else [];
    PutKeepsOrder(result, c.category, Put(inner, CompositeKey(c), c.url));
    PutShape(result, c.category, Put(inner, CompositeKey(c), c.url));
    if Lookup(result, c.category).None? {
      PutShape(inner, CompositeKey(c), c.url);
      assert Put(inner, CompositeKey(c), c.url) == [(CompositeKey(c), c.url)];
    }
  }

  /** Categories stay distinct, and so do the keys inside each category. */
  predicate WellFormed(g: Grouped) {
    UniqueKeys(g) && forall j :: 0 <= j < |g| ==> UniqueKeys(g[j].1)
  }

  lemma InsertWellFormed(result: Grouped, c: ClassifiedBookmark)
    requires WellFormed(result)
    ensures WellFormed(Insert(result, c))
  {
    var inner: Dict<string, string> := if Lookup(result, c.category).Some? then Lookup(result, c.category).value else [];
    var inner2 := Put(inner, CompositeKey(c), c.url);
    PutUniqueKeys(inner, CompositeKey(c), c.url);
    PutUniqueKeys(result, c.category, inner2);
    PutShape(result, c.category, inner2);
    if Lookup(result, c.category).None? {
      assert Insert(result, c) == result + [(c.category, inner2)];
    } else {
      assert Insert(result, c) == result[IndexOfKey(result, c.category) := (c.category, inner2)];
    }
  }

  /** An insertion never leaves an empty category. */
  lemma InsertNoEmptyCategory(result: Grouped, c: ClassifiedBookmark)
    requires NoEmptyCategory(result)
    ensures NoEmptyCategory(Insert(result, c))
  {
    var inner: Dict<string, string> := if Lookup(result, c.category).Some? then Lookup(result, c.category).value else [];
    var inner2 := Put(inner, CompositeKey(c), c.url);
    assert |inner2| > 0;
    PutShape(result, c.category, inner2);
  }

  /** The grouped result of inserting `items` in order into an empty result. */
  function Group(items: seq<ClassifiedBookmark>): Grouped {
    if items == [] then [] else Insert(Group(items[..|items| - 1]), items[|items| - 1])
  }

  lemma GroupAppend(items: seq<ClassifiedBookmark>, c: ClassifiedBookmark)
    ensures Group(items + [c]) == Insert(Group(items), c)
  {
    assert (items + [c])[..|items|] == items;
  }

  /** Every item has an entry under its category and composite key. */
  lemma {:induction false} GroupHasItem(items: seq<ClassifiedBookmark>, i: nat)
    requires i < |items|
    ensures Entry(Group(items), items[i].category, CompositeKey(items[i])).Some?
  {
    var n := |items| - 1;
    var prev := Group(items[..n]);
    assert Group(items) == Insert(prev, items[n]);
    InsertEntry(prev, items[n], items[i].category, CompositeKey(items[i]));
    if i < n {
      assert items[..n][i] == items[i];
      GroupHasItem(items[..n], i);
    }
  }

  /** A (category, key) pair no item has gets no entry. */
  lemma {:induction false} GroupEntryAbsent(items: seq<ClassifiedBookmark>, cat: string, key: string)
    requires forall i :: 0 <= i < |items| ==> items[i].category != cat || CompositeKey(items[i]) != key
    ensures Entry(Group(items), cat, key).None?
  {
    if items != [] {
      var n := |items| - 1;
      assert forall i :: 0 <= i < n ==> items[..n][i] == items[i];
      GroupEntryAbsent(items[..n], cat, key);
      InsertEntry(Group(items[..n]), items[n], cat, key);
    }
  }

  /** A category no item has is absent from the result. */
  lemma {:induction false} GroupCategoryAbsent(items: seq<ClassifiedBookmark>, cat: string)
    requires forall i :: 0 <= i < |items| ==> items[i].category != cat
    ensures Lookup(Group(items), cat).None?
  {
    if items != [] {
      var n := |items| - 1;
      assert forall i :: 0 <= i < n ==> items[..n][i] == items[i];
      GroupCategoryAbsent(items[..n], cat);
      InsertCategory(Group(items[..n]), items[n], cat);
    }
  }

  /** No later item with the same category and key: the url of item `i` is the one kept. */
  predicate LastWithKey(items: seq<ClassifiedBookmark>, i: nat)
    requires i < |items|
  {
    forall j :: i < j < |items| ==> items[j].category != items[i].category || CompositeKey(items[j]) != CompositeKey(items[i])
  }

  /** Dropping the last item keeps an earlier item the last with its key. */
  lemma LastWithKeyPrefix(items: seq<ClassifiedBookmark>, i: nat)
    requires i < |items| - 1 && LastWithKey(items, i)
    ensures items[..|items| - 1][i] == items[i] && LastWithKey(items[..|items| - 1], i)
  {
    var n := |items| - 1;
    forall j | i < j < n ensures items[..n][j] == items[j] { }
  }

  /** Collisions overwrite: the url stored for an item's key is that of the last item with that key. */
  lemma {:induction false} GroupLastWins(items: seq<ClassifiedBookmark>, i: nat)
    requires i < |items| && LastWithKey(items, i)
    ensures Entry(Group(items), items[i].category, CompositeKey(items[i])) == Some(items[i].url)
  {
    var n := |items| - 1;
    var c := items[i];
    InsertEntry(Group(items[..n]), items[n], c.category, CompositeKey(c));
    if i < n {
      LastWithKeyPrefix(items, i);
      GroupLastWins(items[..n], i);
    }
  }

  /** Categories of the result are distinct, and so are the keys inside each. */
  lemma {:induction false} GroupWellFormed(items: seq<ClassifiedBookmark>)
    ensures WellFormed(Group(items))
  {
    if items != [] {
      GroupWellFormed(items[..|items| - 1]);
      InsertWellFormed(Group(items[..|items| - 1]), items[|items| - 1]);
    }
  }

  /** No category of the grouped result is empty. */
  lemma {:induction false} GroupNoEmptyCategory(items: seq<ClassifiedBookmark>)
    ensures NoEmptyCategory(Group(items))
  {
    if items != [] {
      GroupNoEmptyCategory(items[..|items| - 1]);
      InsertNoEmptyCategory(Group(items[..|items| - 1]), items[|items| - 1]);
    }
  }

  /** One insertion adds one site, unless the key was already there. */
  lemma InsertTotal(result: Grouped, c: ClassifiedBookmark)
    ensures TotalEntries(Insert(result, c)) ==
      TotalEntries(result) + if Entry(result, c.category, CompositeKey(c)).Some? then 0 else 1
  {
    var inner: Dict<string, string> := if Lookup(result, c.category).Some? then Lookup(result, c.category).value else [];
    var inner2 := Put(inner, CompositeKey(c), c.url);
    PutShape(result, c.category, inner2);
    if Lookup(result, c.category).None? {
      var r := result + [(c.category, inner2)];
      assert r[..|result|] == result;
    } else {
      var i := IndexOfKey(result, c.category);
      TotalEntriesUpdate(result, i, c.category, inner2);
    }
  }

  /** No two items share both category and composite key. */
  predicate DistinctKeys(items: seq<ClassifiedBookmark>) {
    forall i, j :: 0 <= i < j < |items| ==>
      items[i].category != items[j].category || CompositeKey(items[i]) != CompositeKey(items[j])
  }

  /** The result holds at most one site per item, and exactly one per item when no keys collide. */
  lemma {:induction false} GroupTotal(items: seq<ClassifiedBookmark>)
    ensures TotalEntries(Group(items)) <= |items|
    ensures DistinctKeys(items) ==> TotalEntries(Group(items)) == |items|
  {
    if items != [] {
      var n := |items| - 1;
      var c := items[n];
      GroupTotal(items[..n]);
      InsertTotal(Group(items[..n]), c);
      if DistinctKeys(items) {
        assert forall i :: 0 <= i < n ==> items[..n][i] == items[i];
        GroupEntryAbsent(items[..n], c.category, CompositeKey(c));
      }
    }
  }

  /**
   * The tally of `classify_all` over the gathered list: an element that is an
   * exception or `None` is failed, any other is counted as a success. The
   * backup tasks of the failed elements are selected alongside.
   */
  method Partition<T, U, B>(xs: seq<T>, backup: seq<B>, gathered: seq<Gathered<U>>)
    returns (failed: seq<T>, backupTasks: seq<B>, successCount: nat)
    requires |xs| == |gathered| && |backup| == |gathered|
    ensures failed == Failed(xs, Results(gathered)) && backupTasks == Failed(backup, Results(gathered))
    ensures successCount == |Somes(Results(gathered))| && successCount + |failed| == |xs|
    ensures |backupTasks| == |failed|
  {
    var results := Results(gathered);
    failed, backupTasks, successCount := [], [], 0;
    var i := 0;
    while i < |xs|
      invariant i <= |xs|
      invariant failed == Failed(xs[..i], results[..i])
      invariant backupTasks == Failed(backup[..i], results[..i])
      invariant successCount == |Somes(results[..i])|
    {
      FailedStep(xs, results, i);
      FailedStep(backup, results, i);
      SomesStep(results, i);
      assert results[i] == gathered[i].Result();
      match gathered[i] {
        case Raised =>
          failed := failed + [xs[i]];
          backupTasks := backupTasks + [backup[i]];
        case Returned(value) =>
          if value.Some? {
            successCount := successCount + 1;
          } else {
            failed := failed + [xs[i]];
            backupTasks := backupTasks + [backup[i]];
          }
      }
      i := i + 1;
    }
    TakeFull(xs);
    TakeFull(backup);
    TakeFull(results);
    FailedCount(xs, results);
    FailedCount(backup, results);
  }

  class AIClassifier {
    const bookmarks: seq<Bookmark>
    const maxConcurrency: int
    var result: Grouped
    var classifiedItems: seq<ClassifiedBookmark>

    /** The grouped result is the items inserted in order, and every item's category is in the list. */
    predicate Valid()
      reads this
    {
      result == Group(classifiedItems) && forall c :: c in classifiedItems ==> c.category in Categories
    }

    constructor (bookmarks: seq<Bookmark>, maxConcurrency: Option<int> := None)
      ensures this.bookmarks == bookmarks && this.maxConcurrency == ResolveConcurrency(maxConcurrency)
      ensures result == [] && classifiedItems == []
      ensures Valid()
    {
      this.bookmarks := bookmarks;
      this.maxConcurrency := ResolveConcurrency(maxConcurrency);
      result := [];
      classifiedItems := [];
    }

    /** The insertion shared by both tiers: into the grouped result, and onto the item list. */
    method Add(c: ClassifiedBookmark)
      requires Valid() && c.category in Categories
      modifies this
      ensures Valid()
      ensures result == Insert(old(result), c)
      ensures classifiedItems == old(classifiedItems) + [c]
    {
      GroupAppend(classifiedItems, c);
      result := Insert(result, c);
      classifiedItems := classifiedItems + [c];
    }

    /**
     * `_sync_classify_single`: the reply of the completion call is parsed,
     * and a successful classification is inserted.
     */
    method SyncClassifySingle(reply: ApiReply) returns (classified: Option<ClassifiedBookmark>)
      requires Valid()
      modifies this
      ensures Valid()
      ensures classified == ClassifyReply(reply)
      ensures classified.Some? ==>
        result == Insert(old(result), classified.value) && classifiedItems == old(classifiedItems) + [classified.value]
      ensures classified.None? ==> result == old(result) && classifiedItems == old(classifiedItems)
    {
      match reply {
        case ApiFailed =>
          return None;
        case ApiReplied(content) =>
          if content.None? || content.value == "" {
            return None;
          }
          classified := ParseAiResponse(content.value);
          if classified.Some? {
            Add(classified.value);
          }
      }
    }

    /** One primary task: a task that raised contributes nothing, one that returned classified its reply. */
    method RunTask(o: TaskOutcome) returns (g: Gathered<ClassifiedBookmark>)
      requires Valid()
      modifies this
      ensures Valid()
      ensures g.Raised? <==> o.TaskRaised?
      ensures g.Result() == TaskResult(o)
      ensures classifiedItems == old(classifiedItems) + (if g.Result().Some? then [g.Result().value] else [])
    {
      match o {
        case TaskRaised =>
          g := Raised;
        case TaskReturned(reply) =>
          var r := SyncClassifySingle(reply);
          g := Returned(r);
      }
    }

    /**
     * The primary tasks of `classify_all`, one after another: `outcomes[i]` is
     * how the asyncio task for `bookmarks[i]` ends; a task that returns inserts its
     * classification, if any.
     */
    method RunPrimaryTasks(outcomes: seq<TaskOutcome>) returns (gathered: seq<Gathered<ClassifiedBookmark>>)
      requires Valid() && |outcomes| == |bookmarks|
      modifies this
      ensures Valid()
      ensures |gathered| == |outcomes| && Results(gathered) == TaskResults(outcomes)
      ensures classifiedItems == old(classifiedItems) + Successes(outcomes)
    {
      gathered := [];
      var i := 0;
      while i < |outcomes|
        invariant i <= |outcomes|
        invariant Valid()
        invariant Results(gathered) == TaskResults(outcomes[..i])
        invariant classifiedItems == old(classifiedItems) + Somes(Results(gathered))
      {
        var g := RunTask(outcomes[i]);
        TaskResultsSnoc(outcomes, i);
        ResultsSnoc(gathered, g);
        SomesSnoc(Results(gathered), g.Result());
        ConcatAssoc(old(classifiedItems), Somes(Results(gathered)), if g.Result().Some? then [g.Result().value] else []);
        gathered := gathered + [g];
        i := i + 1;
      }
      TakeFull(outcomes);
    }

    /** The merge of the backup tier's classifications, by the same insertion. */
    method MergeBackup(backupResults: seq<ClassifiedBookmark>)
      requires Valid() && forall k :: 0 <= k < |backupResults| ==> backupResults[k].category in Categories
      modifies this
      ensures Valid()
      ensures classifiedItems == old(classifiedItems) + backupResults
    {
      var k := 0;
      while k < |backupResults|
        invariant k <= |backupResults|
        invariant Valid()
        invariant classifiedItems == old(classifiedItems) + backupResults[..k]
      {
        Add(backupResults[k]);
        TakeSnoc(backupResults, k);
        ConcatAssoc(old(classifiedItems), backupResults[..k], [backupResults[k]]);
        k := k + 1;
      }
      TakeFull(backupResults);
    }

    /**
     * `classify_all`: `outcomes[i]` is how the primary task for
     * `bookmarks[i]` ends, `backupOutcomes[i]` how its backup task would end.
     * The bookmarks without a result are collected in order and, when there
     * are any, handed to the backup tier once; its results are merged by the
     * same insertion.
     */
    method ClassifyAll(outcomes: seq<TaskOutcome>, backupOutcomes: seq<TaskOutcome>)
      returns (failedBookmarks: seq<Bookmark>, successCount: nat, backupInput: Option<seq<Bookmark>>)
      requires Valid()
      requires |outcomes| == |bookmarks| && |backupOutcomes| == |bookmarks|
      modifies this
      ensures Valid()
      ensures failedBookmarks == Failed(bookmarks, TaskResults(outcomes))
      ensures successCount == |Successes(outcomes)| && successCount + |failedBookmarks| == |bookmarks|
      ensures backupInput == if failedBookmarks == [] then None else Some(failedBookmarks)
      ensures classifiedItems ==
        old(classifiedItems) + Successes(outcomes) + Successes(Failed(backupOutcomes, TaskResults(outcomes)))
    {
      var gathered := RunPrimaryTasks(outcomes);
      var backupTasks;
      failedBookmarks, backupTasks, successCount := Partition(bookmarks, backupOutcomes, gathered);
      backupInput := None;
      if failedBookmarks != [] {
        backupInput := Some(failedBookmarks);
        var backupResults, _ := ClassifyFailedBookmarks(failedBookmarks, backupTasks);
        forall k | 0 <= k < |backupResults| ensures backupResults[k].category in Categories {
          SuccessesMembers(backupTasks, backupResults[k]);
        }
        MergeBackup(backupResults);
      } else {
        assert |backupTasks| == 0;
      }
    }

    /**
     * `get_result`: the grouped result of all items classified so far. The
     * source hands out its live dictionary, which later insertions change
     * and a caller could change; here the result is a value, a snapshot of
     * the state at the call.
     */
    method GetResult() returns (r: Grouped)
      requires Valid()
      ensures r == result && r == Group(classifiedItems)
    {
      r := result;
    }

    /** `get_items`: a copy of the item list. */
    method GetItems() returns (items: seq<ClassifiedBookmark>)
      ensures items == classifiedItems
    {
      items := classifiedItems;
    }

    /** `get_statistics`: each category, in the result's order, with the number of its sites. */
    method GetStatistics() returns (stats: Dict<string, int>)
      requires Valid()
      ensures |stats| == |result|
      ensures forall j :: 0 <= j < |result| ==> stats[j] == (result[j].0, |result[j].1|)
    {
      GroupWellFormed(classifiedItems);
      stats := [];
      var i := 0;
      while i < |result|
        invariant i <= |result| && |stats| == i
        invariant forall j :: 0 <= j < i ==> stats[j] == (result[j].0, |result[j].1|)
      {
        var (category, sites) := result[i];
        forall j | 0 <= j < i ensures stats[j].0 != category {
          assert result[j].0 != result[i].0;
        }
        PutShape(stats, category, |sites|);
        stats := Put(stats, category, |sites|);
        i := i + 1;
      }
    }
  }

  /** Every category of a valid classifier's result is in the category list. */
  lemma ResultCategories(c: AIClassifier, cat: string)
    requires c.Valid() && cat !in Categories
    ensures Lookup(c.result, cat).None?
  {
    forall i | 0 <= i < |c.classifiedItems| ensures c.classifiedItems[i].category != cat {
      assert c.classifiedItems[i] in c.classifiedItems;
    }
    GroupCategoryAbsent(c.classifiedItems, cat);
  }

  /** A valid classifier's result has distinct, non-empty categories with distinct keys. */
  lemma ResultShape(c: AIClassifier)
    requires c.Valid()
    ensures WellFormed(c.result) && NoEmptyCategory(c.result)
    ensures TotalEntries(c.result) <= |c.classifiedItems|
  {
    GroupWellFormed(c.classifiedItems);
    GroupNoEmptyCategory(c.classifiedItems);
    GroupTotal(c.classifiedItems);
  }

  /** Every classified item can be found in the result under its category and composite key. */
  lemma ItemsInResult(c: AIClassifier, i: nat)
    requires c.Valid() && i < |c.classifiedItems|
    ensures Entry(c.result, c.classifiedItems[i].category, CompositeKey(c.classifiedItems[i])).Some?
  {
    GroupHasItem(c.classifiedItems, i);
  }
}
