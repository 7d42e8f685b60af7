/**
 * Generic facts about sequences: prefixes, filtering lists of optional
 * results, and the list `asyncio.gather(..., return_exceptions=True)` returns.
 */
module Seqs {
  import opened Wrappers

  /** One element of a gathered list: its task raised, or it returned a value (possibly `None`). */
  datatype Gathered<T> = Raised | Returned(value: Option<T>) {
    /** What the element contributes: nothing for an exception or `None`. */
    function Result(): Option<T> {
      if Raised? then None else value
    }
  }

  function Results<T>(g: seq<Gathered<T>>): (r: seq<Option<T>>)
    ensures |r| == |g| && forall i :: 0 <= i < |g| ==> r[i] == g[i].Result()
  {
    seq(|g|, i requires 0 <= i < |g| => g[i].Result())
  }

  lemma ResultsSnoc<T>(g: seq<Gathered<T>>, x: Gathered<T>)
    ensures Results(g + [x]) == Results(g) + [x.Result()]
  {
    var l, r := Results(g + [x]), Results(g) + [x.Result()];
    assert forall j :: 0 <= j < |l| ==> l[j] == r[j];
  }

  /** `[f(x) for x in s]`. */
  function Map<T, U>(f: T -> U, s: seq<T>): (r: seq<U>)
    ensures |r| == |s| && forall i :: 0 <= i < |s| ==> r[i] == f(s[i])
  {
    seq(|s|, i requires 0 <= i < |s| => f(s[i]))
  }

  lemma MapSnoc<T, U>(f: T -> U, s: seq<T>, i: nat)
    requires i < |s|
    ensures Map(f, s[..i + 1]) == Map(f, s[..i]) + [f(s[i])]
  {
    var l, r := Map(f, s[..i + 1]), Map(f, s[..i]) + [f(s[i])];
    assert forall j :: 0 <= j < i + 1 ==> l[j] == r[j];
  }

  lemma MapConcat<T, U>(f: T -> U, a: seq<T>, b: seq<T>)
    ensures Map(f, a + b) == Map(f, a) + Map(f, b)
  {
    var l, r := Map(f, a + b), Map(f, a) + Map(f, b);
    assert forall j :: 0 <= j < |l| ==> l[j] == r[j];
  }

  lemma TakeSnoc<T>(s: seq<T>, k: nat)
    requires k < |s|
    ensures s[..k + 1] == s[..k] + [s[k]]
  {
  }

  lemma ConcatAssoc<T>(a: seq<T>, b: seq<T>, c: seq<T>)
    ensures (a + b) + c == a + (b + c)
  {
  }

  lemma TakeFull<T>(s: seq<T>)
    ensures s[..|s|] == s
  {
  }

  /** The present values of a list of optional results, in order. */
  function Somes<T>(results: seq<Option<T>>): (r: seq<T>)
    ensures |r| <= |results|
  {
    if results == [] then []
    else
      var last := results[|results| - 1];
      Somes(results[..|results| - 1]) + (if last.Some? then [last.value] else [])
  }

  /** Keeping the present values of two lists one after the other keeps them in that order. */
  lemma {:induction false} SomesConcat<T>(a: seq<Option<T>>, b: seq<Option<T>>)
    ensures Somes(a + b) == Somes(a) + Somes(b)
    decreases |b|
  {
    if b != [] {
      assert (a + b)[..|a + b| - 1] == a + b[..|b| - 1];
      SomesConcat(a, b[..|b| - 1]);
    } else {
      assert a + b == a;
    }
  }

  /** A value is kept exactly when some result holds it. */
  lemma {:induction false} SomesMembers<T>(results: seq<Option<T>>, x: T)
    ensures x in Somes(results) <==> exists i :: 0 <= i < |results| && results[i] == Some(x)
  {
    if results != [] {
      var n := |results|;
      var init := results[..n - 1];
      SomesMembers(init, x);
      if exists i :: 0 <= i < n && results[i] == Some(x) {
        var i :| 0 <= i < n && results[i] == Some(x);
        if i < n - 1 {
          assert init[i] == results[i];
        }
      }
      if x in Somes(init) {
        var i :| 0 <= i < |init| && init[i] == Some(x);
        assert results[i] == init[i];
      }
    }
  }

  /** When every result is present, nothing is dropped. */
  lemma {:induction false} SomesAllPresent<T>(results: seq<Option<T>>)
    requires forall i :: 0 <= i < |results| ==> results[i].Some?
    ensures |Somes(results)| == |results|
  {
    if results != [] {
      SomesAllPresent(results[..|results| - 1]);
    }
  }

  /** Filtering a prefix one longer. */
  lemma SomesStep<T>(results: seq<Option<T>>, i: nat)
    requires i < |results|
    ensures Somes(results[..i + 1]) == Somes(results[..i]) + (if results[i].Some? then [results[i].value] else [])
  {
    assert results[..i + 1][..i] == results[..i];
  }

  /** Filtering one more result. */
  lemma SomesSnoc<T>(a: seq<Option<T>>, x: Option<T>)
    ensures Somes(a + [x]) == Somes(a) + (if x.Some? then [x.value] else [])
  {
    assert (a + [x])[..|a|] == a;
  }

  /** The present values of `results`' positions that hold none: the failed subset of `xs`, in order. */
  function Failed<T, U>(xs: seq<T>, results: seq<Option<U>>): seq<T>
    requires |xs| == |results|
  {
    if xs == [] then []
    else
      var n := |xs| - 1;
      Failed(xs[..n], results[..n]) + (if results[n].None? then [xs[n]] else [])
  }

  /** Every position is either kept by `Somes` or failed. */
  lemma {:induction false} FailedCount<T, U>(xs: seq<T>, results: seq<Option<U>>)
    requires |xs| == |results|
    ensures |Failed(xs, results)| + |Somes(results)| == |xs|
  {
    if xs != [] {
      FailedCount(xs[..|xs| - 1], results[..|xs| - 1]);
    }
  }

  /** An element is in the failed subset exactly when it stands at a position without a result. */
  lemma {:induction false} FailedMembers<T, U>(xs: seq<T>, results: seq<Option<U>>, x: T)
    requires |xs| == |results|
    ensures x in Failed(xs, results) <==> exists i :: 0 <= i < |xs| && xs[i] == x && results[i].None?
  {
    if xs != [] {
      var n := |xs| - 1;
      FailedMembers(xs[..n], results[..n], x);
      if exists i :: 0 <= i < |xs| && xs[i] == x && results[i].None? {
        var i :| 0 <= i < |xs| && xs[i] == x && results[i].None?;
        if i < n {
          assert xs[..n][i] == xs[i] && results[..n][i] == results[i];
        }
      }
      if x in Failed(xs[..n], results[..n]) {
        var i :| 0 <= i < n && xs[..n][i] == x && results[..n][i].None?;
        assert xs[i] == xs[..n][i] && results[i] == results[..n][i];
      }
    }
  }

  /** Nothing fails exactly when every task produced a classification. */
  lemma {:induction false} NothingFailed<T, U>(xs: seq<T>, results: seq<Option<U>>)
    requires |xs| == |results|
    ensures Failed(xs, results) == [] <==> forall i :: 0 <= i < |results| ==> results[i].Some?
  {
    if xs != [] {
      var n := |xs| - 1;
      NothingFailed(xs[..n], results[..n]);
      assert forall i :: 0 <= i < n ==> results[..n][i] == results[i];
    }
  }

  /** One step of a prefix filter. */
  lemma FailedStep<T, U>(xs: seq<T>, results: seq<Option<U>>, i: nat)
    requires |xs| == |results| && i < |xs|
    ensures Failed(xs[..i + 1], results[..i + 1]) ==
      Failed(xs[..i], results[..i]) + (if results[i].None? then [xs[i]] else [])
  {
    assert xs[..i + 1][..i] == xs[..i];
    assert results[..i + 1][..i] == results[..i];
  }

}
