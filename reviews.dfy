/** The data every page of the review dashboard shares: one fetched review row,
    the database's nullable query results, and the sums, counts and zero-guarded
    means that the pages compute over a review list. */
module Reviews {

  /** A query result that may be `null`. */
  datatype Option<+T> = None | Some(value: T)

  /** The calendar month of a review date, as `getMonth() + 1` gives it. */
  type Month = m: int | 1 <= m <= 12 witness 1

  /** One review row. The calendar year and month of `review_date` are already
      extracted; the rating is the row's numeric `rating`. */
  datatype Review = Review(id: string, source: string, rating: real, year: int, month: Month)

  /** `list || []`: a `null` result reads as the empty list. */
  function OrEmpty<T>(list: Option<seq<T>>): seq<T>
  {
    if list.Some? then list.value else []
  }

  /** `reviews?.length || 0`: the length of the list, 0 for `null`. */
  function ReviewCount(reviews: Option<seq<Review>>): (n: nat)
    ensures reviews.None? ==> n == 0
    ensures reviews.Some? ==> n == |reviews.value|
  {
    if reviews.Some? then |reviews.value| else 0
  }

  /** `reviews.map(review => review.rating)` */
  function Ratings(rs: seq<Review>): seq<real>
  {
    seq(|rs|, i requires 0 <= i < |rs| => rs[i].rating)
  }

  /** `reviews.map(review => review.source)` */
  function SourcesOf(rs: seq<Review>): seq<string>
  {
    seq(|rs|, i requires 0 <= i < |rs| => rs[i].source)
  }

  /** `xs.reduce((acc, x) => acc + x, 0)` */
  function Sum(xs: seq<real>): real
  {
    if xs == [] then 0.0 else Sum(xs[..|xs| - 1]) + xs[|xs| - 1]
  }

  /** The number of reviews whose source is exactly `s` (case-sensitive). */
  function CountSource(rs: seq<Review>, s: string): nat
  {
    multiset(SourcesOf(rs))[s]
  }

  /** `new Set(reviews.map(review => review.source))` */
  function SourceSet(rs: seq<Review>): set<string>
  {
    set i | 0 <= i < |rs| :: rs[i].source
  }

  /** The zero-guarded average `sum / length || 0`: the empty list's `0 / 0`
      (NaN) becomes 0, any other list gives its sum divided by its length. */
  function Mean(xs: seq<real>): (m: real)
    ensures |xs| > 0 ==> m * (|xs| as real) == Sum(xs)
    ensures xs == [] ==> m == 0.0
  {
    if |xs| == 0 then 0.0 else Sum(xs) / (|xs| as real)
  }

  /** `Array.prototype.find`, reporting the position of the first element that
      matches (so that the caller can update that element in place). */
  function FindFirst<T>(s: seq<T>, matches: T -> bool): (r: Option<nat>)
    ensures r.Some? ==> r.value < |s| && matches(s[r.value])
    ensures r.Some? ==> forall j :: 0 <= j < r.value ==> !matches(s[j])
    ensures r.None? ==> forall j :: 0 <= j < |s| ==> !matches(s[j])
  {
    if s == [] then None
    else if matches(s[0]) then Some(0)
    else match FindFirst(s[1..], matches)
      case None => None
      case Some(k) => Some(k + 1)
  }

  /** A sum of values that all lie in `[lo, hi]` lies in `[n * lo, n * hi]`. */
  lemma {:induction false} SumWithin(xs: seq<real>, lo: real, hi: real)
    requires forall i :: 0 <= i < |xs| ==> lo <= xs[i] <= hi
    ensures (|xs| as real) * lo <= Sum(xs) <= (|xs| as real) * hi
  {
    if xs != [] {
      SumWithin(xs[..|xs| - 1], lo, hi);
    }
  }

  /** The average of ratings that all lie in `[lo, hi]` lies in `[lo, hi]`
      too; with the guard, so does the empty list's 0 when `lo <= 0 <= hi`. */
  lemma MeanWithin(xs: seq<real>, lo: real, hi: real)
    requires forall i :: 0 <= i < |xs| ==> lo <= xs[i] <= hi
    requires xs == [] ==> lo <= 0.0 <= hi
    ensures lo <= Mean(xs) <= hi
  {
    if xs != [] {
      SumWithin(xs, lo, hi);
      var n := |xs| as real;
      var m := Mean(xs);
      assert m * n == Sum(xs);
      assert (m - lo) * n >= 0.0;
      assert (hi - m) * n >= 0.0;
    }
  }

  /** Appending one rating adds it to the sum. */
  lemma SumSnoc(xs: seq<real>, x: real)
    ensures Sum(xs + [x]) == Sum(xs) + x
  {
    assert (xs + [x])[..|xs|] == xs;
  }

  /** The ratings of a prefix one longer are those of the shorter prefix plus one. */
  lemma RatingsPrefix(rs: seq<Review>, i: nat)
    requires i < |rs|
    ensures Ratings(rs[..i + 1]) == Ratings(rs[..i]) + [rs[i].rating]
    ensures SourcesOf(rs[..i + 1]) == SourcesOf(rs[..i]) + [rs[i].source]
  {
  }

  /** One more review adds its source to the set of sources. */
  lemma SourceSetPrefix(rs: seq<Review>, i: nat)
    requires i < |rs|
    ensures SourceSet(rs[..i + 1]) == SourceSet(rs[..i]) + {rs[i].source}
  {
    forall x | x in SourceSet(rs[..i + 1]) ensures x in SourceSet(rs[..i]) + {rs[i].source} {
      var p :| 0 <= p < i + 1 && rs[..i + 1][p].source == x;
      if p < i {
        assert rs[..i][p].source == x;
      }
    }
    forall x | x in SourceSet(rs[..i]) ensures x in SourceSet(rs[..i + 1]) {
      var p :| 0 <= p < i && rs[..i][p].source == x;
      assert rs[..i + 1][p].source == x;
    }
    assert rs[..i + 1][i].source == rs[i].source;
  }

  /** A list without repetitions has as many distinct elements as entries. */
  lemma {:induction false} DistinctCardinality<T>(xs: seq<T>)
    requires forall i, j :: 0 <= i < j < |xs| ==> xs[i] != xs[j]
    ensures |set x | x in xs| == |xs|
  {
    if xs != [] {
      var init := xs[..|xs| - 1];
      DistinctCardinality(init);
      assert (set x | x in xs) == (set x | x in init) + {xs[|xs| - 1]};
      assert xs[|xs| - 1] !in init;
    }
  }
}
