/** The "Average Rating Trend" data of the analytics page: reviews are grouped
    into one bucket per `month/year` key by a reduce that updates its
    accumulator array in place, and the buckets are then sorted by the date
    parsed back out of the key. */
module MonthlyTrend {
  import opened Reviews
  import opened MonthKeys

  /** One entry of `monthlyData`: the key `month`, how many reviews fell in
      it, the sum of their ratings and the average kept up to date. */
  datatype Bucket = Bucket(month: string, count: nat, totalRating: real, avgRating: real)

  /** The key of the month a review was written in. */
  function ReviewKey(r: Review): string
  {
    MonthKey(r.month, r.year)
  }

  function KeysOf(rs: seq<Review>): seq<string>
  {
    seq(|rs|, i requires 0 <= i < |rs| => ReviewKey(rs[i]))
  }

  /** The number of reviews whose month key is `key`. */
  function CountMonth(rs: seq<Review>, key: string): nat
  {
    multiset(KeysOf(rs))[key]
  }

  /** The sum of the ratings of the reviews whose month key is `key`. */
  function MonthTotal(rs: seq<Review>, key: string): real
  {
    if rs == [] then 0.0
    else MonthTotal(rs[..|rs| - 1], key) + (if ReviewKey(rs[|rs| - 1]) == key then rs[|rs| - 1].rating else 0.0)
  }

  /** The distinct month keys of the reviews. */
  function MonthSet(rs: seq<Review>): set<string>
  {
    set p | 0 <= p < |rs| :: ReviewKey(rs[p])
  }

  function Months(bs: seq<Bucket>): seq<string>
  {
    seq(|bs|, i requires 0 <= i < |bs| => bs[i].month)
  }

  function SumCounts(bs: seq<Bucket>): nat
  {
    if bs == [] then 0 else bs[0].count + SumCounts(bs[1..])
  }

  function SumTotals(bs: seq<Bucket>): real
  {
    if bs == [] then 0.0 else bs[0].totalRating + SumTotals(bs[1..])
  }

  /** The bucket is non-empty and its average is its total over its count. */
  predicate Consistent(b: Bucket)
  {
    b.count >= 1 && b.avgRating == b.totalRating / (b.count as real)
  }

  /** At most one bucket per key. */
  predicate DistinctMonths(bs: seq<Bucket>)
  {
    forall i, j :: 0 <= i < j < |bs| ==> bs[i].month != bs[j].month
  }

  /** Every bucket holds exactly the count and rating sum of the reviews of
      its own key. */
  predicate Tallies(rs: seq<Review>, bs: seq<Bucket>)
  {
    forall b :: b in bs ==>
      Consistent(b) && b.count == CountMonth(rs, b.month) && b.totalRating == MonthTotal(rs, b.month)
  }

  /** Every review has a bucket for its key. */
  predicate Covers(rs: seq<Review>, bs: seq<Bucket>)
  {
    forall key :: key in KeysOf(rs) ==> key in Months(bs)
  }

  /** The comparator's view of a bucket: `new Date(year, month - 1)` of the
      month and year parsed back out of its key, counted in months. */
  function SortIndex(b: Bucket): int
  {
    MonthIndex(KeyMonth(b.month), KeyYear(b.month))
  }

  predicate SortedByIndex(bs: seq<Bucket>)
  {
    forall i, j :: 0 <= i < j < |bs| ==> SortIndex(bs[i]) <= SortIndex(bs[j])
  }

  /** Key `k1` names an earlier calendar month than key `k2`. */
  predicate Earlier(k1: string, k2: string)
  {
    KeyYear(k1) < KeyYear(k2) || (KeyYear(k1) == KeyYear(k2) && KeyMonth(k1) < KeyMonth(k2))
  }

  /** Strictly increasing by (year, month), so 11/2023 comes before 2/2024. */
  predicate Chronological(bs: seq<Bucket>)
  {
    forall i, j :: 0 <= i < j < |bs| ==> Earlier(bs[i].month, bs[j].month)
  }

  /** No review is dated in a year that `new Date(year, month)` would read
      as 1900 + year. */
  predicate NoTwoDigitYears(rs: seq<Review>)
  {
    forall p :: 0 <= p < |rs| ==> !(0 <= rs[p].year <= 99)
  }

  /** Places `b` before the first element that does not sort strictly before
      it, so that equal elements keep their input order. */
  function InsertByMonth(b: Bucket, s: seq<Bucket>): seq<Bucket>
  {
    if s == [] then [b]
    else if SortIndex(b) <= SortIndex(s[0]) then [b] + s
    else [s[0]] + InsertByMonth(b, s[1..])
  }

  /** `.sort((a, b) => dateOf(a) - dateOf(b))`: a stable sort by `SortIndex`. */
  function SortByMonth(s: seq<Bucket>): seq<Bucket>
  {
    if s == [] then [] else InsertByMonth(s[0], SortByMonth(s[1..]))
  }

  // ----- the reduce -----

  /** The `monthlyData` reduce: for each review, `find` the bucket of its key,
      then either bump that bucket's count and total and recompute its
      average, or push a new bucket with count 1. */
  method GroupByMonth(reviews: seq<Review>) returns (acc: seq<Bucket>)
    ensures DistinctMonths(acc)
    ensures Tallies(reviews, acc)
    ensures Covers(reviews, acc)
    ensures SumCounts(acc) == |reviews|
    ensures SumTotals(acc) == Sum(Ratings(reviews))
  {
    acc := [];
    var i := 0;
    while i < |reviews|
      invariant 0 <= i <= |reviews|
      invariant GroupedPrefix(reviews, i, acc)
    {
      var review := reviews[i];
      var key := ReviewKey(review);
      var found := BucketOf(acc, key);
      if found.Some? {
        var k := found.value;
        var entry := acc[k];
        var count := entry.count + 1;
        var total := entry.totalRating + review.rating;
        var updated := Bucket(entry.month, count, total, total / (count as real));
        UpdateStep(reviews, i, acc, k, updated);
        acc := acc[k := updated];
      } else {
        var pushed := Bucket(key, 1, review.rating, review.rating);
        PushStep(reviews, i, acc, pushed);
        acc := acc + [pushed];
      }
      i := i + 1;
    }
    assert reviews[..i] == reviews;
  }

  /** `acc.find(item => item.month === monthYear)`, as the position found. */
  function BucketOf(acc: seq<Bucket>, key: string): (found: Option<nat>)
    ensures found.Some? ==> found.value < |acc| && acc[found.value].month == key
    ensures found.None? ==> forall j :: 0 <= j < |acc| ==> acc[j].month != key
  {
    FindFirst(acc, (entry: Bucket) => entry.month == key)
  }

  /** What the reduce has built after the first `i` reviews. */
  predicate GroupedPrefix(rs: seq<Review>, i: nat, acc: seq<Bucket>)
    requires i <= |rs|
  {
    && DistinctMonths(acc)
    && Tallies(rs[..i], acc)
    && Covers(rs[..i], acc)
    && SumCounts(acc) == i
    && SumTotals(acc) == Sum(Ratings(rs[..i]))
  }

  /** The found-bucket branch of the reduce keeps the accumulator right. */
  lemma UpdateStep(rs: seq<Review>, i: nat, acc: seq<Bucket>, k: nat, updated: Bucket)
    requires i < |rs| && GroupedPrefix(rs, i, acc)
    requires k < |acc| && acc[k].month == ReviewKey(rs[i])
    requires updated.month == acc[k].month && updated.count == acc[k].count + 1
    requires updated.totalRating == acc[k].totalRating + rs[i].rating
    requires updated.avgRating == updated.totalRating / (updated.count as real)
    ensures GroupedPrefix(rs, i + 1, acc[k := updated])
  {
    UpdateSums(rs, i, acc, k, updated);
    UpdateKeys(rs, i, acc, k, updated);
    UpdateTallies(rs, i, acc, k, updated);
  }

  lemma UpdateSums(rs: seq<Review>, i: nat, acc: seq<Bucket>, k: nat, updated: Bucket)
    requires i < |rs| && SumCounts(acc) == i && SumTotals(acc) == Sum(Ratings(rs[..i]))
    requires k < |acc| && updated.count == acc[k].count + 1
    requires updated.totalRating == acc[k].totalRating + rs[i].rating
    ensures SumCounts(acc[k := updated]) == i + 1
    ensures SumTotals(acc[k := updated]) == Sum(Ratings(rs[..i + 1]))
  {
    RatingsPrefix(rs, i);
    SumsUpdate(acc, k, updated);
    SumSnoc(Ratings(rs[..i]), rs[i].rating);
  }

  lemma UpdateKeys(rs: seq<Review>, i: nat, acc: seq<Bucket>, k: nat, updated: Bucket)
    requires i < |rs| && DistinctMonths(acc) && Covers(rs[..i], acc)
    requires k < |acc| && acc[k].month == ReviewKey(rs[i]) && updated.month == acc[k].month
    ensures DistinctMonths(acc[k := updated]) && Covers(rs[..i + 1], acc[k := updated])
  {
    var next := acc[k := updated];
    PrefixKeys(rs, i);
    assert Months(next) == Months(acc);
    forall a, b | 0 <= a < b < |next| ensures next[a].month != next[b].month {
      assert next[a].month == acc[a].month && next[b].month == acc[b].month;
    }
    assert Months(acc)[k] == ReviewKey(rs[i]);
  }

  lemma UpdateTallies(rs: seq<Review>, i: nat, acc: seq<Bucket>, k: nat, updated: Bucket)
    requires i < |rs| && DistinctMonths(acc) && Tallies(rs[..i], acc)
    requires k < |acc| && acc[k].month == ReviewKey(rs[i])
    requires updated.month == acc[k].month && updated.count == acc[k].count + 1
    requires updated.totalRating == acc[k].totalRating + rs[i].rating
    requires updated.avgRating == updated.totalRating / (updated.count as real)
    ensures Tallies(rs[..i + 1], acc[k := updated])
  {
    var next := acc[k := updated];
    forall j | 0 <= j < |next|
      ensures Consistent(next[j]) && next[j].count == CountMonth(rs[..i + 1], next[j].month)
      ensures next[j].totalRating == MonthTotal(rs[..i + 1], next[j].month)
    {
      if j == k {
        FoundBucketUpdated(rs, i, acc, k, updated);
      } else {
        OtherBucketUnchanged(rs, i, acc, k, j);
      }
    }
  }

  lemma FoundBucketUpdated(rs: seq<Review>, i: nat, acc: seq<Bucket>, k: nat, updated: Bucket)
    requires i < |rs| && Tallies(rs[..i], acc)
    requires k < |acc| && acc[k].month == ReviewKey(rs[i])
    requires updated.month == acc[k].month && updated.count == acc[k].count + 1
    requires updated.totalRating == acc[k].totalRating + rs[i].rating
    requires updated.avgRating == updated.totalRating / (updated.count as real)
    ensures Consistent(updated)
    ensures updated.count == CountMonth(rs[..i + 1], updated.month)
    ensures updated.totalRating == MonthTotal(rs[..i + 1], updated.month)
  {
    PrefixCounts(rs, i, updated.month);
    assert acc[k] in acc;
  }

  /** A consistent bucket's average times its count is its total. */
  lemma ConsistentAverage(b: Bucket)
    requires Consistent(b)
    ensures b.avgRating * (b.count as real) == b.totalRating
  {
  }

  lemma OtherBucketUnchanged(rs: seq<Review>, i: nat, acc: seq<Bucket>, k: nat, j: nat)
    requires i < |rs| && DistinctMonths(acc) && Tallies(rs[..i], acc)
    requires k < |acc| && acc[k].month == ReviewKey(rs[i])
    requires j < |acc| && j != k
    ensures Consistent(acc[j])
    ensures acc[j].count == CountMonth(rs[..i + 1], acc[j].month)
    ensures acc[j].totalRating == MonthTotal(rs[..i + 1], acc[j].month)
  {
    PrefixCounts(rs, i, acc[j].month);
    assert acc[j] in acc;
    assert acc[j].month != acc[k].month;
  }

  lemma PrefixCounts(rs: seq<Review>, i: nat, key: string)
    requires i < |rs|
    ensures CountMonth(rs[..i + 1], key) == CountMonth(rs[..i], key) + (if ReviewKey(rs[i]) == key then 1 else 0)
    ensures MonthTotal(rs[..i + 1], key) == MonthTotal(rs[..i], key) + (if ReviewKey(rs[i]) == key then rs[i].rating else 0.0)
  {
    PrefixCount(rs, i, key);
    PrefixTotal(rs, i, key);
  }

  lemma PrefixCount(rs: seq<Review>, i: nat, key: string)
    requires i < |rs|
    ensures CountMonth(rs[..i + 1], key) == CountMonth(rs[..i], key) + (if ReviewKey(rs[i]) == key then 1 else 0)
  {
    PrefixKeys(rs, i);
    assert multiset(KeysOf(rs[..i + 1])) == multiset(KeysOf(rs[..i])) + multiset{ReviewKey(rs[i])};
  }

  lemma PrefixTotal(rs: seq<Review>, i: nat, key: string)
    requires i < |rs|
    ensures MonthTotal(rs[..i + 1], key) == MonthTotal(rs[..i], key) + (if ReviewKey(rs[i]) == key then rs[i].rating else 0.0)
  {
    var longer := rs[..i + 1];
    assert longer[..|longer| - 1] == rs[..i];
    assert longer[|longer| - 1] == rs[i];
  }

  /** The new-bucket branch of the reduce keeps the accumulator right. */
  lemma PushStep(rs: seq<Review>, i: nat, acc: seq<Bucket>, pushed: Bucket)
    requires i < |rs| && GroupedPrefix(rs, i, acc)
    requires forall j :: 0 <= j < |acc| ==> acc[j].month != ReviewKey(rs[i])
    requires pushed == Bucket(ReviewKey(rs[i]), 1, rs[i].rating, rs[i].rating)
    ensures GroupedPrefix(rs, i + 1, acc + [pushed])
  {
    PushSums(rs, i, acc, pushed);
    PushKeys(rs, i, acc, pushed);
    var key := ReviewKey(rs[i]);
    assert key !in Months(acc);
    assert CountMonth(rs[..i], key) == 0 by {
      assert key !in KeysOf(rs[..i]);
    }
    MonthTotalOfAbsentKey(rs[..i], key);
    PushTallies(rs, i, acc, pushed);
  }

  lemma PushSums(rs: seq<Review>, i: nat, acc: seq<Bucket>, pushed: Bucket)
    requires i < |rs| && SumCounts(acc) == i && SumTotals(acc) == Sum(Ratings(rs[..i]))
    requires pushed == Bucket(ReviewKey(rs[i]), 1, rs[i].rating, rs[i].rating)
    ensures SumCounts(acc + [pushed]) == i + 1
    ensures SumTotals(acc + [pushed]) == Sum(Ratings(rs[..i + 1]))
  {
    RatingsPrefix(rs, i);
    SumsSnoc(acc, pushed);
    SumSnoc(Ratings(rs[..i]), rs[i].rating);
  }

  lemma PushKeys(rs: seq<Review>, i: nat, acc: seq<Bucket>, pushed: Bucket)
    requires i < |rs| && DistinctMonths(acc) && Covers(rs[..i], acc)
    requires forall j :: 0 <= j < |acc| ==> acc[j].month != ReviewKey(rs[i])
    requires pushed == Bucket(ReviewKey(rs[i]), 1, rs[i].rating, rs[i].rating)
    ensures DistinctMonths(acc + [pushed]) && Covers(rs[..i + 1], acc + [pushed])
  {
    PrefixKeys(rs, i);
    assert Months(acc + [pushed]) == Months(acc) + [pushed.month];
  }

  lemma PushTallies(rs: seq<Review>, i: nat, acc: seq<Bucket>, pushed: Bucket)
    requires i < |rs| && Tallies(rs[..i], acc)
    requires forall j :: 0 <= j < |acc| ==> acc[j].month != ReviewKey(rs[i])
    requires pushed == Bucket(ReviewKey(rs[i]), 1, rs[i].rating, rs[i].rating)
    requires CountMonth(rs[..i], pushed.month) == 0 && MonthTotal(rs[..i], pushed.month) == 0.0
    ensures Tallies(rs[..i + 1], acc + [pushed])
  {
    var next := acc + [pushed];
    forall j | 0 <= j < |next|
      ensures Consistent(next[j]) && next[j].count == CountMonth(rs[..i + 1], next[j].month)
      ensures next[j].totalRating == MonthTotal(rs[..i + 1], next[j].month)
    {
      if j < |acc| {
        assert next[j] == acc[j] && acc[j] in acc;
        OtherBucketKept(rs, i, acc[j]);
      } else {
        PushedTally(rs, i, pushed);
        SingleConsistent(pushed);
      }
    }
  }

  lemma PushedTally(rs: seq<Review>, i: nat, pushed: Bucket)
    requires i < |rs|
    requires pushed == Bucket(ReviewKey(rs[i]), 1, rs[i].rating, rs[i].rating)
    requires CountMonth(rs[..i], pushed.month) == 0 && MonthTotal(rs[..i], pushed.month) == 0.0
    ensures pushed.count == CountMonth(rs[..i + 1], pushed.month)
    ensures pushed.totalRating == MonthTotal(rs[..i + 1], pushed.month)
  {
    PrefixCounts(rs, i, pushed.month);
  }

  /** A bucket of one review is consistent: its average is its rating. */
  lemma SingleConsistent(b: Bucket)
    requires b.count == 1 && b.avgRating == b.totalRating
    ensures Consistent(b)
  {
  }

  lemma OtherBucketKept(rs: seq<Review>, i: nat, b: Bucket)
    requires i < |rs| && b.month != ReviewKey(rs[i])
    requires Consistent(b) && b.count == CountMonth(rs[..i], b.month) && b.totalRating == MonthTotal(rs[..i], b.month)
    ensures b.count == CountMonth(rs[..i + 1], b.month)
    ensures b.totalRating == MonthTotal(rs[..i + 1], b.month)
  {
    PrefixCounts(rs, i, b.month);
  }

  /** A key no review has sums to 0. */
  lemma {:induction false} MonthTotalOfAbsentKey(rs: seq<Review>, key: string)
    requires CountMonth(rs, key) == 0
    ensures MonthTotal(rs, key) == 0.0
  {
    if rs != [] {
      var n := |rs| - 1;
      assert rs[..n + 1] == rs;
      PrefixCount(rs, n, key);
      PrefixTotal(rs, n, key);
      MonthTotalOfAbsentKey(rs[..n], key);
    }
  }

  // ----- the full chart data -----

  /** `monthlyData`: the reduce followed by the sort. Each review falls in
      exactly one bucket, the buckets' counts and totals add up to the whole
      list, and the buckets run forward in time. */
  method MonthlyData(reviews: seq<Review>) returns (data: seq<Bucket>)
    ensures DistinctMonths(data)
    ensures Tallies(reviews, data)
    ensures Covers(reviews, data)
    ensures SumCounts(data) == |reviews|
    ensures SumTotals(data) == Sum(Ratings(reviews))
    ensures SortedByIndex(data)
    ensures NoTwoDigitYears(reviews) ==> Chronological(data)
  {
    var acc := GroupByMonth(reviews);
    data := SortByMonth(acc);
    SortSpec(acc);
    MonthsPermutation(acc, data);
    forall b | b in data ensures b in acc {
      assert b in multiset(data);
    }
    if NoTwoDigitYears(reviews) {
      SortedDistinctIsChronological(reviews, data);
    }
  }

  // ----- lemmas -----

  lemma PrefixKeys(rs: seq<Review>, i: nat)
    requires i < |rs|
    ensures KeysOf(rs[..i + 1]) == KeysOf(rs[..i]) + [ReviewKey(rs[i])]
  {
    var a, b := KeysOf(rs[..i + 1]), KeysOf(rs[..i]) + [ReviewKey(rs[i])];
    assert |a| == |b|;
    forall p | 0 <= p < |a| ensures a[p] == b[p] {
      assert rs[..i + 1][p] == rs[p];
    }
  }

  lemma {:induction false} SumsSnoc(bs: seq<Bucket>, b: Bucket)
    ensures SumCounts(bs + [b]) == SumCounts(bs) + b.count
    ensures SumTotals(bs + [b]) == SumTotals(bs) + b.totalRating
  {
    if bs != [] {
      assert (bs + [b])[1..] == bs[1..] + [b];
      SumsSnoc(bs[1..], b);
    }
  }

  lemma {:induction false} SumsUpdate(bs: seq<Bucket>, k: nat, b: Bucket)
    requires k < |bs|
    ensures SumCounts(bs[k := b]) == SumCounts(bs) - bs[k].count + b.count
    ensures SumTotals(bs[k := b]) == SumTotals(bs) - bs[k].totalRating + b.totalRating
  {
    if k == 0 {
      assert bs[k := b][1..] == bs[1..];
    } else {
      assert bs[k := b][1..] == bs[1..][k - 1 := b];
      SumsUpdate(bs[1..], k - 1, b);
    }
  }

  lemma {:induction false} InsertPermutes(b: Bucket, s: seq<Bucket>)
    ensures multiset(InsertByMonth(b, s)) == multiset{b} + multiset(s)
  {
    if s != [] && SortIndex(b) > SortIndex(s[0]) {
      InsertPermutes(b, s[1..]);
      assert s == [s[0]] + s[1..];
    }
  }

  lemma {:induction false} InsertSums(b: Bucket, s: seq<Bucket>)
    ensures SumCounts(InsertByMonth(b, s)) == b.count + SumCounts(s)
    ensures SumTotals(InsertByMonth(b, s)) == b.totalRating + SumTotals(s)
  {
    if s == [] {
      assert InsertByMonth(b, s) == [b];
      assert [b][1..] == [];
    } else if SortIndex(b) <= SortIndex(s[0]) {
      assert ([b] + s)[1..] == s;
    } else {
      InsertSums(b, s[1..]);
      assert ([s[0]] + InsertByMonth(b, s[1..]))[1..] == InsertByMonth(b, s[1..]);
    }
  }

  lemma {:induction false} InsertSorted(b: Bucket, s: seq<Bucket>)
    requires SortedByIndex(s)
    ensures SortedByIndex(InsertByMonth(b, s))
  {
    if s != [] && SortIndex(b) > SortIndex(s[0]) {
      var rest := InsertByMonth(b, s[1..]);
      InsertSorted(b, s[1..]);
      InsertPermutes(b, s[1..]);
      HeadBelowInserted(b, s, rest);
      ConsSorted(s[0], rest);
    } else {
      ConsSorted(b, s);
    }
  }

  /** Inserting past the head leaves the head below every bucket of the
      result, which holds the inserted bucket and the rest of the list. */
  lemma HeadBelowInserted(b: Bucket, s: seq<Bucket>, rest: seq<Bucket>)
    requires s != [] && SortedByIndex(s) && SortIndex(b) > SortIndex(s[0])
    requires multiset(rest) == multiset{b} + multiset(s[1..])
    ensures forall j :: 0 <= j < |rest| ==> SortIndex(s[0]) <= SortIndex(rest[j])
  {
    forall j | 0 <= j < |rest| ensures SortIndex(s[0]) <= SortIndex(rest[j]) {
      assert rest[j] in multiset(rest);
      if rest[j] != b {
        assert rest[j] in multiset(s[1..]);
        var q :| 0 <= q < |s[1..]| && s[1..][q] == rest[j];
        assert s[q + 1] == rest[j];
      }
    }
  }

  /** A bucket no later than every bucket of a sorted list, put in front of
      it, keeps the list sorted. */
  lemma ConsSorted(x: Bucket, rest: seq<Bucket>)
    requires SortedByIndex(rest) && forall j :: 0 <= j < |rest| ==> SortIndex(x) <= SortIndex(rest[j])
    ensures SortedByIndex([x] + rest)
  {
    var r := [x] + rest;
    forall i, j | 0 <= i < j < |r| ensures SortIndex(r[i]) <= SortIndex(r[j]) {
      if i == 0 {
        assert r[j] == rest[j - 1];
      } else {
        assert r[i] == rest[i - 1] && r[j] == rest[j - 1];
      }
    }
  }

  lemma {:induction false} InsertDistinct(b: Bucket, s: seq<Bucket>)
    requires DistinctMonths(s) && b.month !in Months(s)
    ensures DistinctMonths(InsertByMonth(b, s))
  {
    if s != [] && SortIndex(b) > SortIndex(s[0]) {
      var rest := InsertByMonth(b, s[1..]);
      assert Months(s[1..]) == Months(s)[1..];
      InsertDistinct(b, s[1..]);
      InsertPermutes(b, s[1..]);
      assert Months(s)[0] == s[0].month;
      MonthAbsentFromRest(s);
      MonthAbsentAfterInsert(s[0].month, b, s[1..], rest);
      ConsDistinct(s[0], rest);
    } else {
      forall j | 0 <= j < |s| ensures s[j].month != b.month {
        assert Months(s)[j] == s[j].month;
      }
      ConsDistinct(b, s);
    }
  }

  /** In a list without repeated months the head's month is not among the rest. */
  lemma MonthAbsentFromRest(s: seq<Bucket>)
    requires s != [] && DistinctMonths(s)
    ensures forall j :: 0 <= j < |s[1..]| ==> s[1..][j].month != s[0].month
  {
    forall j | 0 <= j < |s[1..]| ensures s[1..][j].month != s[0].month {
      assert s[1..][j] == s[j + 1];
    }
  }

  /** A month that neither the inserted bucket nor the list has is not in the
      result, which holds the same buckets. */
  lemma MonthAbsentAfterInsert(m: string, b: Bucket, t: seq<Bucket>, rest: seq<Bucket>)
    requires multiset(rest) == multiset{b} + multiset(t)
    requires b.month != m && forall j :: 0 <= j < |t| ==> t[j].month != m
    ensures forall j :: 0 <= j < |rest| ==> rest[j].month != m
  {
    forall j | 0 <= j < |rest| ensures rest[j].month != m {
      assert rest[j] in multiset(rest);
      if rest[j] != b {
        assert rest[j] in multiset(t);
        var q :| 0 <= q < |t| && t[q] == rest[j];
      }
    }
  }

  /** A bucket whose month the rest does not have, in front of a list without
      repeated months, keeps the months distinct. */
  lemma ConsDistinct(x: Bucket, rest: seq<Bucket>)
    requires DistinctMonths(rest) && forall j :: 0 <= j < |rest| ==> rest[j].month != x.month
    ensures DistinctMonths([x] + rest)
  {
    var r := [x] + rest;
    forall i, j | 0 <= i < j < |r| ensures r[i].month != r[j].month {
      if i == 0 {
        assert r[j] == rest[j - 1];
      } else {
        assert r[i] == rest[i - 1] && r[j] == rest[j - 1];
      }
    }
  }

  lemma {:induction false} SortPermutes(s: seq<Bucket>)
    ensures multiset(SortByMonth(s)) == multiset(s)
  {
    if s != [] {
      SortPermutes(s[1..]);
      InsertPermutes(s[0], SortByMonth(s[1..]));
      assert s == [s[0]] + s[1..];
    }
  }

  lemma {:induction false} SortSums(s: seq<Bucket>)
    ensures SumCounts(SortByMonth(s)) == SumCounts(s)
    ensures SumTotals(SortByMonth(s)) == SumTotals(s)
  {
    if s != [] {
      SortSums(s[1..]);
      InsertSums(s[0], SortByMonth(s[1..]));
    }
  }

  lemma {:induction false} SortSorted(s: seq<Bucket>)
    ensures SortedByIndex(SortByMonth(s))
  {
    if s != [] {
      SortSorted(s[1..]);
      InsertSorted(s[0], SortByMonth(s[1..]));
    }
  }

  lemma {:induction false} SortDistinct(s: seq<Bucket>)
    requires DistinctMonths(s)
    ensures DistinctMonths(SortByMonth(s))
  {
    if s != [] {
      var t := SortByMonth(s[1..]);
      SortDistinct(s[1..]);
      SortPermutes(s[1..]);
      forall key | key in Months(t) ensures key != s[0].month {
        var j :| 0 <= j < |t| && t[j].month == key;
        assert t[j] in multiset(s[1..]);
        var q :| 0 <= q < |s[1..]| && s[1..][q] == t[j];
        assert s[q + 1] == t[j];
      }
      InsertDistinct(s[0], t);
    }
  }

  /** The sort reorders the buckets and nothing else. */
  lemma SortSpec(s: seq<Bucket>)
    ensures multiset(SortByMonth(s)) == multiset(s)
    ensures SumCounts(SortByMonth(s)) == SumCounts(s)
    ensures SumTotals(SortByMonth(s)) == SumTotals(s)
    ensures SortedByIndex(SortByMonth(s))
    ensures DistinctMonths(s) ==> DistinctMonths(SortByMonth(s))
  {
    SortPermutes(s);
    SortSums(s);
    SortSorted(s);
    if DistinctMonths(s) {
      SortDistinct(s);
    }
  }

  /** Reordering the buckets keeps the set of keys that have a bucket. */
  lemma MonthsPermutation(a: seq<Bucket>, b: seq<Bucket>)
    requires multiset(a) == multiset(b)
    ensures forall key :: key in Months(a) ==> key in Months(b)
  {
    forall key | key in Months(a) ensures key in Months(b) {
      var j :| 0 <= j < |a| && a[j].month == key;
      assert a[j] in multiset(b);
      var i :| 0 <= i < |b| && b[i] == a[j];
      assert Months(b)[i] == key;
    }
  }

  /** A key with a positive count is the key of some review. */
  lemma CountedKeyOccurs(rs: seq<Review>, key: string) returns (p: nat)
    requires CountMonth(rs, key) > 0
    ensures p < |rs| && ReviewKey(rs[p]) == key
  {
    assert key in multiset(KeysOf(rs));
    p :| 0 <= p < |KeysOf(rs)| && KeysOf(rs)[p] == key;
  }

  /** Sorted by the comparator, with one bucket per key and no two-digit
      years, the buckets are strictly chronological. */
  lemma SortedDistinctIsChronological(rs: seq<Review>, bs: seq<Bucket>)
    requires Tallies(rs, bs) && DistinctMonths(bs) && SortedByIndex(bs)
    requires NoTwoDigitYears(rs)
    ensures Chronological(bs)
  {
    forall i, j | 0 <= i < j < |bs| ensures Earlier(bs[i].month, bs[j].month) {
      assert bs[i] in bs && bs[j] in bs;
      var p := CountedKeyOccurs(rs, bs[i].month);
      var q := CountedKeyOccurs(rs, bs[j].month);
      KeyRoundTrip(rs[p].month, rs[p].year);
      KeyRoundTrip(rs[q].month, rs[q].year);
      MonthIndexIsChronological(rs[p].month, rs[p].year, rs[q].month, rs[q].year);
      assert SortIndex(bs[i]) <= SortIndex(bs[j]);
    }
  }

  /** There are exactly as many buckets as distinct months among the
      reviews: a review whose key already has a bucket adds to it. */
  lemma BucketPerDistinctMonth(rs: seq<Review>, bs: seq<Bucket>)
    requires DistinctMonths(bs) && Tallies(rs, bs) && Covers(rs, bs)
    ensures |bs| == |MonthSet(rs)|
  {
    var named := set k | k in Months(bs);
    KeysAmong(rs, bs);
    forall key | key in named ensures key in MonthSet(rs) {
      var i :| 0 <= i < |bs| && Months(bs)[i] == key;
    }
    KeysCovered(rs, bs);
    assert named == MonthSet(rs);
    DistinctCardinality(Months(bs));
  }

  /** Every review's key names a bucket. */
  lemma KeysCovered(rs: seq<Review>, bs: seq<Bucket>)
    requires Covers(rs, bs)
    ensures forall key :: key in MonthSet(rs) ==> key in Months(bs)
  {
    forall key | key in MonthSet(rs) ensures key in Months(bs) {
      var p :| 0 <= p < |rs| && ReviewKey(rs[p]) == key;
      assert KeysOf(rs)[p] == key;
    }
  }

  // ----- worked examples -----

  /** Five reviews rated 5, 4, 3, 2 and 1, all from March 2024. */
  const March2024: seq<Review> := [
    Review("r1", "google", 5.0, 2024, 3),
    Review("r2", "google", 4.0, 2024, 3),
    Review("r3", "yelp", 3.0, 2024, 3),
    Review("r4", "yelp", 2.0, 2024, 3),
    Review("r5", "trustpilot", 1.0, 2024, 3)
  ]

  /** Reviews that all fall in month `k`: every review counted in it. */
  lemma {:induction false} SameMonth(rs: seq<Review>, k: string)
    requires forall p :: 0 <= p < |rs| ==> ReviewKey(rs[p]) == k
    ensures CountMonth(rs, k) == |rs|
    ensures MonthTotal(rs, k) == Sum(Ratings(rs))
  {
    if rs != [] {
      var n := |rs| - 1;
      SameMonth(rs[..n], k);
      PrefixCounts(rs, n, k);
      RatingsPrefix(rs, n);
      assert rs[..n + 1] == rs;
    }
  }

  /** Reviews that all fall in month `k` have that one key. */
  lemma SameMonthKeys(rs: seq<Review>, k: string)
    requires rs != [] && forall p :: 0 <= p < |rs| ==> ReviewKey(rs[p]) == k
    ensures MonthSet(rs) == {k}
  {
    assert ReviewKey(rs[0]) == k;
  }

  /** When every review falls in the same month, any bucket list meeting the
      reduce's contract is a single bucket for that month, holding all the
      reviews and their mean rating. */
  lemma OneMonthOneBucket(rs: seq<Review>, acc: seq<Bucket>)
    requires rs != [] && forall p :: 0 <= p < |rs| ==> ReviewKey(rs[p]) == ReviewKey(rs[0])
    requires DistinctMonths(acc) && Tallies(rs, acc) && Covers(rs, acc)
    ensures |acc| == 1 && acc[0].month == ReviewKey(rs[0])
    ensures acc[0].count == |rs| && acc[0].avgRating == Mean(Ratings(rs))
  {
    var k := ReviewKey(rs[0]);
    SameMonth(rs, k);
    SameMonthKeys(rs, k);
    BucketPerDistinctMonth(rs, acc);
    assert KeysOf(rs)[0] == k;
    assert Months(acc)[0] == k;
    assert acc[0] in acc;
  }

  lemma MarchFacts()
    ensures |March2024| == 5
    ensures forall p :: 0 <= p < |March2024| ==> ReviewKey(March2024[p]) == ReviewKey(March2024[0])
    ensures Sum(Ratings(March2024)) == 15.0
  {
    var xs := Ratings(March2024);
    assert xs == [5.0, 4.0, 3.0, 2.0, 1.0];
    assert xs[..4] == [5.0, 4.0, 3.0, 2.0];
    assert xs[..4][..3] == [5.0, 4.0, 3.0];
    assert xs[..4][..3][..2] == [5.0, 4.0];
    assert xs[..4][..3][..2][..1] == [5.0];
    assert xs[..4][..3][..2][..1][..0] == [];
    assert Sum(xs[..4][..3][..2][..1]) == 5.0;
    assert Sum(xs[..4][..3][..2]) == 9.0;
    assert Sum(xs[..4][..3]) == 12.0;
    assert Sum(xs[..4]) == 14.0;
  }

  /** The ratings 5, 4, 3, 2, 1 of March 2024 give one bucket, count 5,
      average 3. */
  lemma MarchExample(acc: seq<Bucket>)
    requires DistinctMonths(acc) && Tallies(March2024, acc) && Covers(March2024, acc)
    ensures |acc| == 1 && acc[0].count == 5 && acc[0].avgRating == 3.0
  {
    MarchFacts();
    OneMonthOneBucket(March2024, acc);
  }

  /** Reviews of 20 February 2024, 15 November 2023 and 2 January 2024, in
      that order. */
  const Winter: seq<Review> := [
    Review("w1", "google", 4.0, 2024, 2),
    Review("w2", "yelp", 5.0, 2023, 11),
    Review("w3", "google", 3.0, 2024, 1)
  ]

  lemma WinterKeys()
    ensures KeysOf(Winter) == [MonthKey(2, 2024), MonthKey(11, 2023), MonthKey(1, 2024)]
    ensures MonthSet(Winter) == {MonthKey(2, 2024), MonthKey(11, 2023), MonthKey(1, 2024)}
  {
    assert ReviewKey(Winter[0]) == MonthKey(2, 2024);
    assert ReviewKey(Winter[1]) == MonthKey(11, 2023);
    assert ReviewKey(Winter[2]) == MonthKey(1, 2024);
  }

  /** Three buckets whose keys lie among three month keys, in chronological
      order, are in the calendar order of those keys. */
  lemma ThreeInOrder(data: seq<Bucket>, keys: set<string>, k1: string, k2: string, k3: string)
    requires |data| == 3 && forall i :: 0 <= i < |data| ==> data[i].month in keys
    requires keys == {k1, k2, k3}
    requires Chronological(data) && Earlier(k1, k2) && Earlier(k2, k3)
    ensures Months(data) == [k1, k2, k3]
  {
    assert Earlier(data[0].month, data[1].month) && Earlier(data[1].month, data[2].month);
  }

  /** Every bucket's key is the key of some review. */
  lemma KeysAmong(rs: seq<Review>, data: seq<Bucket>)
    requires Tallies(rs, data)
    ensures forall i :: 0 <= i < |data| ==> data[i].month in MonthSet(rs)
  {
    forall i | 0 <= i < |data| ensures data[i].month in MonthSet(rs) {
      assert data[i] in data;
      var p := CountedKeyOccurs(rs, data[i].month);
      assert ReviewKey(rs[p]) in MonthSet(rs);
    }
  }

  lemma WinterOrder()
    ensures Earlier(MonthKey(11, 2023), MonthKey(1, 2024)) && Earlier(MonthKey(1, 2024), MonthKey(2, 2024))
    ensures |{MonthKey(2, 2024), MonthKey(11, 2023), MonthKey(1, 2024)}| == 3
  {
    KeyRoundTrip(11, 2023);
    KeyRoundTrip(1, 2024);
    KeyRoundTrip(2, 2024);
  }

  /** The chart runs 11/2023, 1/2024, 2/2024, although as text "1/2024"
      sorts before "11/2023". */
  lemma WinterExample(data: seq<Bucket>)
    requires DistinctMonths(data) && Tallies(Winter, data) && Covers(Winter, data)
    requires Chronological(data)
    ensures Months(data) == [MonthKey(11, 2023), MonthKey(1, 2024), MonthKey(2, 2024)]
  {
    WinterKeys();
    WinterOrder();
    KeysAmong(Winter, data);
    BucketPerDistinctMonth(Winter, data);
    ThreeInOrder(data, MonthSet(Winter), MonthKey(11, 2023), MonthKey(1, 2024), MonthKey(2, 2024));
  }
}
