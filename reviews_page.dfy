/** The reviews overview page: the total, the zero-guarded average and the
    count per source that the overview component receives. */
module ReviewsPage {
  import opened Reviews
  import opened SourceDictionary

  datatype ReviewsSummary = ReviewsSummary(
    totalReviews: nat,
    averageRating: real,
    reviewsBySource: map<string, nat>)

  /** `reviews?.reduce((acc, review) => acc + Number(review.rating), 0) / totalReviews || 0`:
      a `null` list gives `undefined / 0` and the empty list `0 / 0`, both NaN,
      which `|| 0` turns into 0. */
  function AverageRating(reviews: Option<seq<Review>>): (avg: real)
    ensures avg == Mean(Ratings(OrEmpty(reviews)))
  {
    match reviews
    case None => 0.0
    case Some(list) => if ReviewCount(reviews) == 0 then 0.0 else Sum(Ratings(list)) / (ReviewCount(reviews) as real)
  }

  /** The three values the page hands to the overview component. */
  method Summarize(reviews: Option<seq<Review>>) returns (summary: ReviewsSummary)
    ensures summary.totalReviews == |OrEmpty(reviews)|
    ensures summary.averageRating == Mean(Ratings(OrEmpty(reviews)))
    ensures IsTally(OrEmpty(reviews), summary.reviewsBySource)
    ensures MapTotal(summary.reviewsBySource) == summary.totalReviews
    ensures reviews.None? ==> summary.reviewsBySource == map[]
  {
    var bySource := ReviewsBySource(reviews);
    summary := ReviewsSummary(ReviewCount(reviews), AverageRating(reviews), bySource);
  }
}
