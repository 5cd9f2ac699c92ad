/** The "Review Volume by Source" data and the key metrics of the analytics
    page: a reduce that keeps one entry per source in the order the sources
    are first met, the number of distinct sources, and the overall average. */
module Analytics {
  import opened Reviews

  /** One entry of `sourceDistribution`. */
  datatype SourceCount = SourceCount(source: string, count: nat)

  function SourceNames(acc: seq<SourceCount>): seq<string>
  {
    seq(|acc|, j requires 0 <= j < |acc| => acc[j].source)
  }

  function SumSourceCounts(acc: seq<SourceCount>): nat
  {
    if acc == [] then 0 else SumSourceCounts(acc[..|acc| - 1]) + acc[|acc| - 1].count
  }

  /** The distinct elements of `xs`, each where it first occurs: a reference
      definition of what a "find, else push" reduce keeps. */
  function FirstSeen<T(==)>(xs: seq<T>): seq<T>
  {
    if xs == [] then []
    else
      var init := xs[..|xs| - 1];
      var last := xs[|xs| - 1];
      FirstSeen(init) + (if last in init then [] else [last])
  }

  /** The position of the first occurrence of `x` in `xs`. */
  function FirstIndex<T(==)>(xs: seq<T>, x: T): (r: nat)
    requires x in xs
    ensures r < |xs| && xs[r] == x
    ensures forall q :: 0 <= q < r ==> xs[q] != x
  {
    if xs[0] == x then 0 else 1 + FirstIndex(xs[1..], x)
  }

  predicate Distinct<T(==)>(xs: seq<T>)
  {
    forall i, j :: 0 <= i < j < |xs| ==> xs[i] != xs[j]
  }

  /** Every entry counts exactly the reviews that carry its source string. */
  predicate CountsSources(rs: seq<Review>, acc: seq<SourceCount>)
  {
    forall j :: 0 <= j < |acc| ==> acc[j].count == CountSource(rs, acc[j].source)
  }

  /** The `sourceDistribution` reduce: for each review, `find` the entry of its
      source and bump its count, or push a new entry with count 1. */
  method SourceDistribution(reviews: seq<Review>) returns (acc: seq<SourceCount>)
    ensures SourceNames(acc) == FirstSeen(SourcesOf(reviews))
    ensures CountsSources(reviews, acc)
    ensures forall j :: 0 <= j < |acc| ==> acc[j].count >= 1
    ensures SumSourceCounts(acc) == |reviews|
    ensures Distinct(SourceNames(acc))
    ensures forall s :: s in SourceNames(acc) <==> s in SourcesOf(reviews)
    ensures forall i, j :: 0 <= i < j < |acc| ==>
      FirstIndex(SourcesOf(reviews), acc[i].source) < FirstIndex(SourcesOf(reviews), acc[j].source)
  {
    acc := [];
    var i := 0;
    while i < |reviews|
      invariant 0 <= i <= |reviews|
      invariant DistributedPrefix(reviews, i, acc)
    {
      var review := reviews[i];
      var found := FindFirst(acc, (entry: SourceCount) => entry.source == review.source);
      if found.Some? {
        var k := found.value;
        var updated := SourceCount(acc[k].source, acc[k].count + 1);
        BumpStep(reviews, i, acc, k);
        acc := acc[k := updated];
      } else {
        var pushed := SourceCount(review.source, 1);
        PushSourceStep(reviews, i, acc);
        acc := acc + [pushed];
      }
      i := i + 1;
    }
    assert reviews[..i] == reviews;
    FirstSeenMembers(SourcesOf(reviews));
    FirstSeenOrder(SourcesOf(reviews));
    forall j | 0 <= j < |acc| ensures acc[j].source == FirstSeen(SourcesOf(reviews))[j] {
      assert SourceNames(acc)[j] == acc[j].source;
    }
  }

  /** What the reduce has built after the first `i` reviews. */
  predicate DistributedPrefix(rs: seq<Review>, i: nat, acc: seq<SourceCount>)
    requires i <= |rs|
  {
    && SourceNames(acc) == FirstSeen(SourcesOf(rs[..i]))
    && CountsSources(rs[..i], acc)
    && (forall j :: 0 <= j < |acc| ==> acc[j].count >= 1)
    && SumSourceCounts(acc) == i
  }

  /** The found-entry branch of the reduce keeps the accumulator right. */
  lemma BumpStep(rs: seq<Review>, i: nat, acc: seq<SourceCount>, k: nat)
    requires i < |rs| && DistributedPrefix(rs, i, acc)
    requires k < |acc| && acc[k].source == rs[i].source
    ensures DistributedPrefix(rs, i + 1, acc[k := SourceCount(acc[k].source, acc[k].count + 1)])
  {
    var updated := SourceCount(acc[k].source, acc[k].count + 1);
    RatingsPrefix(rs, i);
    FirstSeenMembers(SourcesOf(rs[..i]));
    assert SourceNames(acc) == SourceNames(acc[k := updated]);
    assert rs[i].source in SourcesOf(rs[..i]) by {
      assert SourceNames(acc)[k] == rs[i].source;
    }
    assert SourcesOf(rs[..i + 1])[..i] == SourcesOf(rs[..i]);
    FoundSourceCounts(rs, i, acc, k);
    SumSourceCountsUpdate(acc, k, updated);
  }

  /** The new-entry branch of the reduce keeps the accumulator right. */
  lemma PushSourceStep(rs: seq<Review>, i: nat, acc: seq<SourceCount>)
    requires i < |rs| && DistributedPrefix(rs, i, acc)
    requires forall j :: 0 <= j < |acc| ==> acc[j].source != rs[i].source
    ensures DistributedPrefix(rs, i + 1, acc + [SourceCount(rs[i].source, 1)])
  {
    var pushed := SourceCount(rs[i].source, 1);
    RatingsPrefix(rs, i);
    FirstSeenMembers(SourcesOf(rs[..i]));
    assert rs[i].source !in SourcesOf(rs[..i]) by {
      forall j | 0 <= j < |acc| ensures SourceNames(acc)[j] != rs[i].source {
      }
    }
    assert SourcesOf(rs[..i + 1])[..i] == SourcesOf(rs[..i]);
    assert SourceNames(acc + [pushed]) == SourceNames(acc) + [rs[i].source];
    NewSourceCounts(rs, i, acc);
    assert (acc + [pushed])[..|acc|] == acc;
  }

  /** Bumping the found entry keeps every count exact. */
  lemma FoundSourceCounts(rs: seq<Review>, i: nat, acc: seq<SourceCount>, k: nat)
    requires i < |rs| && k < |acc| && acc[k].source == rs[i].source
    requires Distinct(SourceNames(acc)) && CountsSources(rs[..i], acc)
    ensures CountsSources(rs[..i + 1], acc[k := SourceCount(acc[k].source, acc[k].count + 1)])
  {
    RatingsPrefix(rs, i);
    forall j | 0 <= j < |acc| && j != k ensures acc[j].source != rs[i].source {
      if j < k {
        assert SourceNames(acc)[j] != SourceNames(acc)[k];
      } else {
        assert SourceNames(acc)[k] != SourceNames(acc)[j];
      }
    }
  }

  /** Pushing an entry for a source not seen before keeps every count exact. */
  lemma NewSourceCounts(rs: seq<Review>, i: nat, acc: seq<SourceCount>)
    requires i < |rs| && rs[i].source !in SourcesOf(rs[..i])
    requires forall j :: 0 <= j < |acc| ==> acc[j].source != rs[i].source
    requires CountsSources(rs[..i], acc)
    ensures CountsSources(rs[..i + 1], acc + [SourceCount(rs[i].source, 1)])
  {
    RatingsPrefix(rs, i);
  }

  lemma {:induction false} SumSourceCountsUpdate(acc: seq<SourceCount>, k: nat, e: SourceCount)
    requires k < |acc|
    ensures SumSourceCounts(acc[k := e]) == SumSourceCounts(acc) - acc[k].count + e.count
  {
    var n := |acc| - 1;
    if k < n {
      SumSourceCountsUpdate(acc[..n], k, e);
      assert acc[k := e][..n] == acc[..n][k := e];
    } else {
      assert acc[k := e][..n] == acc[..n];
    }
  }

  /** `FirstSeen` keeps exactly the elements of its input. */
  lemma {:induction false} FirstSeenMembers<T>(xs: seq<T>)
    ensures forall x :: x in FirstSeen(xs) <==> x in xs
    ensures Distinct(FirstSeen(xs))
  {
    if xs != [] {
      var init := xs[..|xs| - 1];
      FirstSeenMembers(init);
      assert xs == init + [xs[|xs| - 1]];
    }
  }

  lemma FirstIndexSnoc<T>(xs: seq<T>, y: T, x: T)
    requires x in xs
    ensures FirstIndex(xs + [y], x) == FirstIndex(xs, x)
  {
    assert (xs + [y])[FirstIndex(xs, x)] == x;
  }

  /** The entries of `FirstSeen` come in the order of their first occurrence. */
  lemma {:induction false} FirstSeenOrder<T>(xs: seq<T>)
    ensures forall x :: x in FirstSeen(xs) ==> x in xs
    ensures forall i, j :: 0 <= i < j < |FirstSeen(xs)| ==>
      FirstIndex(xs, FirstSeen(xs)[i]) < FirstIndex(xs, FirstSeen(xs)[j])
  {
    FirstSeenMembers(xs);
    if xs != [] {
      var init := xs[..|xs| - 1];
      var last := xs[|xs| - 1];
      var fs := FirstSeen(xs);
      var fi := FirstSeen(init);
      FirstSeenOrder(init);
      FirstSeenMembers(init);
      assert xs == init + [last];
      forall i, j | 0 <= i < j < |fs| ensures FirstIndex(xs, fs[i]) < FirstIndex(xs, fs[j]) {
        assert fs[i] == fi[i] && fs[i] in init;
        FirstIndexSnoc(init, last, fs[i]);
        if j < |fi| {
          assert fs[j] == fi[j];
          FirstIndexSnoc(init, last, fs[j]);
        } else {
          assert fs[j] == last && last !in init;
        }
      }
    }
  }

  /** `new Set(reviews.map(review => review.source)).size` */
  function DistinctSourceCount(rs: seq<Review>): nat
  {
    |SourceSet(rs)|
  }

  /** The "Review Sources" metric equals the number of bars in the chart. */
  lemma DistinctSourcesAreEntries(rs: seq<Review>)
    ensures DistinctSourceCount(rs) == |FirstSeen(SourcesOf(rs))|
  {
    var fs := FirstSeen(SourcesOf(rs));
    FirstSeenMembers(SourcesOf(rs));
    DistinctCardinality(fs);
    forall s | s in SourceSet(rs) ensures s in fs {
      var p :| 0 <= p < |rs| && rs[p].source == s;
      assert SourcesOf(rs)[p] == s;
    }
    assert (set x | x in fs) == SourceSet(rs);
  }

  /** The source distribution and the distinct-source metric together. */
  method SourceMetrics(reviews: seq<Review>) returns (acc: seq<SourceCount>, sources: nat)
    ensures SourceNames(acc) == FirstSeen(SourcesOf(reviews))
    ensures CountsSources(reviews, acc)
    ensures SumSourceCounts(acc) == |reviews|
    ensures sources == |acc|
  {
    acc := SourceDistribution(reviews);
    sources := DistinctSourceCount(reviews);
    DistinctSourcesAreEntries(reviews);
  }

  /** `reviews.reduce((acc, review) => acc + review.rating, 0) / reviews.length || 0` */
  function AverageRating(rs: seq<Review>): (avg: real)
    ensures rs == [] ==> avg == 0.0
    ensures rs != [] ==> avg * (|rs| as real) == Sum(Ratings(rs))
  {
    Mean(Ratings(rs))
  }

  /** With ratings on the 1..5 scale, the average of a non-empty list stays
      on that scale, inside the chart's `[0, 5]` axis. */
  lemma AverageOnScale(rs: seq<Review>)
    requires rs != []
    requires forall p :: 0 <= p < |rs| ==> 1.0 <= rs[p].rating <= 5.0
    ensures 1.0 <= AverageRating(rs) <= 5.0
  {
    var xs := Ratings(rs);
    assert forall p :: 0 <= p < |xs| ==> xs[p] == rs[p].rating;
    MeanWithin(xs, 1.0, 5.0);
  }
}
