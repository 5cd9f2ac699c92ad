/** The dashboard overview: the `metrics` object computed from the five most
    recent reviews, the arrow that shows the trend's direction, and the
    "Recent Reviews" panel. */
module Dashboard {
  import opened Reviews
  import opened ReviewsList

  /** The `.limit(5)` of the dashboard's review query. */
  const RecentLimit: nat := 5

  /** The trend is a fixed placeholder; nothing computes it. */
  const RecentTrend: real := 0.2

  datatype Metrics = Metrics(totalReviews: nat, averageRating: real, recentTrend: real)

  /** `reviews?.reduce((acc, review) => acc + review.rating, 0) / (reviews?.length || 1) || 0`.
      A `null` list gives `undefined / 1`, which is NaN; the empty list gives
      `0 / 1`. Either way `|| 0` leaves 0. */
  function DashboardAverage(reviews: Option<seq<Review>>): real
  {
    var divisor := if ReviewCount(reviews) > 0 then ReviewCount(reviews) else 1;
    match reviews
    case None => 0.0
    case Some(list) => Sum(Ratings(list)) / (divisor as real)
  }

  /** The dashboard's `metrics` object. */
  function DashboardMetrics(reviews: Option<seq<Review>>): (m: Metrics)
    ensures m.totalReviews == |OrEmpty(reviews)|
    ensures m.recentTrend == RecentTrend
  {
    Metrics(ReviewCount(reviews), DashboardAverage(reviews), RecentTrend)
  }

  /** Dividing by `length || 1` instead of by the length is the zero-guarded
      mean: the sum over the count for a non-empty list, 0 for an empty or
      `null` one. */
  lemma DashboardAverageIsMean(reviews: Option<seq<Review>>)
    ensures DashboardMetrics(reviews).averageRating == Mean(Ratings(OrEmpty(reviews)))
    ensures OrEmpty(reviews) == [] ==> DashboardMetrics(reviews).averageRating == 0.0
  {
    if reviews.Some? && reviews.value == [] {
      assert Ratings([]) == [];
    }
  }

  /** What the `.limit(5)` query hands the page: the first five reviews of
      the business, in the order the database returns them. */
  function RecentReviews(all: seq<Review>): (recent: seq<Review>)
    ensures |recent| == if |all| < RecentLimit then |all| else RecentLimit
    ensures recent == all[..|recent|]
  {
    if |all| < RecentLimit then all else all[..RecentLimit]
  }

  /** The "Total Reviews" card counts the fetched reviews only, so it shows
      the business's number of reviews capped at 5. */
  lemma TotalReviewsIsCapped(all: seq<Review>)
    ensures DashboardMetrics(Some(RecentReviews(all))).totalReviews == if |all| < RecentLimit then |all| else RecentLimit
    ensures DashboardMetrics(Some(RecentReviews(all))).totalReviews <= RecentLimit
  {
  }

  datatype Arrow = Up | Down

  datatype TrendBadge = TrendBadge(arrow: Arrow, colourClass: string)

  /** The arrow and colour chosen by `metrics.recentTrend >= 0`. */
  function TrendIndicator(trend: real): (badge: TrendBadge)
    ensures badge.arrow == Up <==> trend >= 0.0
    ensures badge.colourClass == "text-green-600" <==> trend >= 0.0
    ensures badge.colourClass == "text-red-600" <==> trend < 0.0
  {
    if trend >= 0.0 then TrendBadge(Up, "text-green-600") else TrendBadge(Down, "text-red-600")
  }

  /** With the constant trend the dashboard always shows the green up arrow. */
  lemma DashboardShowsUp(reviews: Option<seq<Review>>)
    ensures TrendIndicator(DashboardMetrics(reviews).recentTrend) == TrendBadge(Up, "text-green-600")
  {
  }

  /** One row of the "Recent Reviews" panel: the stars and "via {source}".
      Unlike the review list's cards, these rows have no colour badge. */
  datatype RecentRow = RecentRow(id: string, source: string, stars: seq<bool>)

  function RecentRowOf(r: Review): RecentRow
  {
    RecentRow(r.id, r.source, StarRow(r.rating))
  }

  /** The "Recent Reviews" panel: the fallback text, or one row of stars per
      review in order. */
  datatype Panel = NoReviewsYet | Rows(rows: seq<RecentRow>)

  /** `reviews?.length ? reviews.map(...) : "No reviews yet"` */
  function RecentReviewsPanel(reviews: Option<seq<Review>>): (p: Panel)
    ensures p == NoReviewsYet <==> reviews.None? || reviews.value == []
    ensures p.Rows? ==> |p.rows| == |reviews.value|
    ensures p.Rows? ==> forall i :: 0 <= i < |p.rows| ==> p.rows[i].id == reviews.value[i].id
    ensures p.Rows? ==> forall i :: 0 <= i < |p.rows| ==> p.rows[i].source == reviews.value[i].source
    ensures p.Rows? ==> forall i :: 0 <= i < |p.rows| ==> p.rows[i].stars == StarRow(reviews.value[i].rating)
  {
    if ReviewCount(reviews) > 0 then
      Rows(seq(|reviews.value|, i requires 0 <= i < |reviews.value| => RecentRowOf(reviews.value[i])))
    else NoReviewsYet
  }
}
